/** The tree analyses of lpcode.c and what they promise about matching. The C functions follow calls without a bound.
    Here 'checkaux', 'getfirst' and 'headfail' carry the number 'd' of nested calls still allowed in a grammar, and
    give the conservative answer at the first call beyond it, so every promise below holds for every d. CheckEnds,
    FirstEnds and HeadEnds say that the bound is not met; then a larger bound changes nothing, and module
    GrammarCheck proves them for grammars that pass 'verifygrammar'. The search of 'hascaptures' is different: it
    need not end on such grammars, and SearchEnds says exactly when it does. */
module Analysis {
  import opened Common
  import opened PegTree
  import opened Peg

  datatype Pred = PEnullable | PEnofail

  /** Call depth given to the analyses by the code generator. */
  const DEPTH: nat := 2 * MAXRULES + 2

  /** How deep grammars are nested in a tree. */
  function Nesting(t: Tree): nat
    decreases t, 0
  {
    match t
    case TRep(p) => Nesting(p)
    case TNot(p) => Nesting(p)
    case TAnd(p) => Nesting(p)
    case TBehind(_, p) => Nesting(p)
    case TCapture(_, _, p) => Nesting(p)
    case TSeq(p1, p2) => Larger(Nesting(p1), Nesting(p2))
    case TChoice(p1, p2) => Larger(Nesting(p1), Nesting(p2))
    case TGrammar(rules) => 1 + NestingAll(rules)
    case _ => 0
  }

  function NestingAll(rs: seq<Tree>): (n: nat)
    ensures forall k :: 0 <= k < |rs| ==> Nesting(rs[k]) <= n
    decreases rs, 1
  {
    if rs == [] then 0 else Larger(Nesting(rs[0]), NestingAll(rs[1..]))
  }

  function Larger(a: nat, b: nat): nat {
    if a < b then b else a
  }

  /** What goes down whenever a nested grammar is entered, and never up. */
  function Height(g: seq<Tree>, t: Tree): nat {
    Larger(NestingAll(g), Nesting(t))
  }

  /** 'checkaux'. A call without a rule is an open one. */
  predicate CheckAux(g: seq<Tree>, t: Tree, pred: Pred, d: nat)
    decreases Height(g, t), d, t
  {
    match t
    case TChar(_) => false
    case TSet(_) => false
    case TAny => false
    case TFalse => false
    case TRep(_) => true
    case TTrue => true
    case TNot(_) => pred == PEnullable
    case TBehind(_, _) => pred == PEnullable
    case TAnd(p) => pred == PEnullable || CheckAux(g, p, pred, d)
    case TSeq(p1, p2) => CheckAux(g, p1, pred, d) && CheckAux(g, p2, pred, d)
    case TChoice(p1, p2) => CheckAux(g, p2, pred, d) || CheckAux(g, p1, pred, d)
    case TCapture(_, _, p) => CheckAux(g, p, pred, d)
    case TGrammar(rules) => if rules == [] then pred == PEnullable else CheckAux(rules, rules[0], pred, DEPTH)
    case TCall(k) => k < |g| && if d == 0 then pred == PEnullable else CheckAux(g, g[k], pred, d - 1)
  }

  /** len plus the number of characters every match of t takes, or -1 if that number may vary. */
  function FixedLenX(g: seq<Tree>, t: Tree, count: nat, len: nat): (r: int)
    ensures r == -1 || r >= len
    decreases if count <= MAXRULES then MAXRULES - count else 0, t
  {
    match t
    case TChar(_) => len + 1
    case TSet(_) => len + 1
    case TAny => len + 1
    case TFalse => len
    case TTrue => len
    case TNot(_) => len
    case TAnd(_) => len
    case TBehind(_, _) => len
    case TRep(_) => -1
    case TCapture(_, _, p) => FixedLenX(g, p, count, len)
    case TGrammar(rules) => if rules == [] then -1 else FixedLenX(rules, rules[0], count, len)
    case TCall(k) => if count >= MAXRULES || k >= |g| then -1 else FixedLenX(g, g[k], count + 1, len)
    case TSeq(p1, p2) =>
      var l1 := FixedLenX(g, p1, count, len);
      if l1 < 0 then -1 else FixedLenX(g, p2, count, l1)
    case TChoice(p1, p2) =>
      var n1 := FixedLenX(g, p1, count, len);
      if n1 < 0 then -1 else
      var n2 := FixedLenX(g, p2, count, len);
      if n1 == n2 then n1 else -1
  }

  function FixedLen(g: seq<Tree>, t: Tree): int {
    FixedLenX(g, t, 0, 0)
  }

  /** First set of a pattern; 'e' is set when the pattern may accept the empty subject. */
  datatype First = First(cs: Charset, e: bool)

  function GetFirst(g: seq<Tree>, t: Tree, fl: Charset, d: nat): First
    decreases Height(g, t), d, t
  {
    match t
    case TChar(_) => First(ToCharset(t), false)
    case TSet(_) => First(ToCharset(t), false)
    case TAny => First(ToCharset(t), false)
    case TTrue => First(fl, true)
    case TFalse => First({}, false)
    case TChoice(p1, p2) =>
      var f1, f2 := GetFirst(g, p1, fl, d), GetFirst(g, p2, fl, d);
      First(f1.cs + f2.cs, f1.e || f2.e)
    case TSeq(p1, p2) =>
      if !CheckAux(g, p1, PEnullable, d) then GetFirst(g, p1, FULL, d)
      else
        var f2 := GetFirst(g, p2, fl, d);
        var f1 := GetFirst(g, p1, f2.cs, d);
        First(f1.cs, f1.e && f2.e)
    case TRep(p) => First(GetFirst(g, p, fl, d).cs + fl, true)
    case TCapture(_, _, p) => GetFirst(g, p, fl, d)
    case TGrammar(rules) => if rules == [] then First(FULL, true) else GetFirst(rules, rules[0], fl, DEPTH)
    case TCall(k) => if d == 0 || k >= |g| then First(FULL, true) else GetFirst(g, g[k], fl, d - 1)
    case TAnd(p) =>
      var f := GetFirst(g, p, fl, d);
      First(f.cs * fl, f.e)
    case TNot(p) => if IsCharset(p) then First(FULL - ToCharset(p), true) else First(fl, true)
    case TBehind(_, _) => First(fl, true)
  }

  /** Whether the pattern can fail only depending on the next character of the subject. */
  predicate HeadFail(g: seq<Tree>, t: Tree, d: nat)
    decreases Height(g, t), d, t
  {
    match t
    case TChar(_) => true
    case TSet(_) => true
    case TAny => true
    case TFalse => true
    case TTrue => false
    case TRep(_) => false
    case TNot(_) => false
    case TBehind(_, _) => false
    case TCapture(_, _, p) => HeadFail(g, p, d)
    case TAnd(p) => HeadFail(g, p, d)
    case TGrammar(rules) => rules != [] && HeadFail(rules, rules[0], DEPTH)
    case TCall(k) => d > 0 && k < |g| && HeadFail(g, g[k], d - 1)
    case TSeq(p1, p2) => CheckAux(g, p2, PEnofail, d) && HeadFail(g, p1, d)
    case TChoice(p1, p2) => HeadFail(g, p1, d) && HeadFail(g, p2, d)
  }

  // ----- the bound on nested calls is not met -----

  /** 'checkaux' returns without following more than d nested calls. */
  predicate CheckEnds(g: seq<Tree>, t: Tree, pred: Pred, d: nat)
    decreases Height(g, t), d, t
  {
    match t
    case TAnd(p) => pred == PEnullable || CheckEnds(g, p, pred, d)
    case TSeq(p1, p2) => CheckEnds(g, p1, pred, d) && (CheckAux(g, p1, pred, d) ==> CheckEnds(g, p2, pred, d))
    case TChoice(p1, p2) => CheckEnds(g, p2, pred, d) && (!CheckAux(g, p2, pred, d) ==> CheckEnds(g, p1, pred, d))
    case TCapture(_, _, p) => CheckEnds(g, p, pred, d)
    case TGrammar(rules) => rules == [] || CheckEnds(rules, rules[0], pred, DEPTH)
    case TCall(k) => k >= |g| || (d > 0 && CheckEnds(g, g[k], pred, d - 1))
    case _ => true
  }

  /** 'getfirst' returns without following more than d nested calls. It also goes into patterns whose first set it
      does not use. */
  predicate FirstEnds(g: seq<Tree>, t: Tree, d: nat)
    decreases Height(g, t), d, t
  {
    match t
    case TChoice(p1, p2) => FirstEnds(g, p1, d) && FirstEnds(g, p2, d)
    case TSeq(p1, p2) =>
      CheckEnds(g, p1, PEnullable, d) && FirstEnds(g, p1, d) && (CheckAux(g, p1, PEnullable, d) ==> FirstEnds(g, p2, d))
    case TRep(p) => FirstEnds(g, p, d)
    case TCapture(_, _, p) => FirstEnds(g, p, d)
    case TAnd(p) => FirstEnds(g, p, d)
    case TNot(p) => IsCharset(p) || FirstEnds(g, p, d)
    case TBehind(_, p) => FirstEnds(g, p, d)
    case TGrammar(rules) => rules == [] || FirstEnds(rules, rules[0], DEPTH)
    case TCall(k) => k >= |g| || (d > 0 && FirstEnds(g, g[k], d - 1))
    case _ => true
  }

  /** 'headfail' returns without following more than d nested calls. */
  predicate HeadEnds(g: seq<Tree>, t: Tree, d: nat)
    decreases Height(g, t), d, t
  {
    match t
    case TCapture(_, _, p) => HeadEnds(g, p, d)
    case TAnd(p) => HeadEnds(g, p, d)
    case TGrammar(rules) => rules == [] || HeadEnds(rules, rules[0], DEPTH)
    case TCall(k) => k >= |g| || (d > 0 && HeadEnds(g, g[k], d - 1))
    case TSeq(p1, p2) => CheckEnds(g, p2, PEnofail, d) && (CheckAux(g, p2, PEnofail, d) ==> HeadEnds(g, p1, d))
    case TChoice(p1, p2) => HeadEnds(g, p1, d) && (HeadFail(g, p1, d) ==> HeadEnds(g, p2, d))
    case _ => true
  }

  /** If the bound is not met, every larger one gives the same answer. */
  lemma {:induction false} CheckMore(g: seq<Tree>, t: Tree, pred: Pred, d: nat, d': nat)
    requires CheckEnds(g, t, pred, d) && d <= d'
    ensures CheckEnds(g, t, pred, d') && CheckAux(g, t, pred, d') == CheckAux(g, t, pred, d)
    decreases d, t
  {
    match t
    case TAnd(p) => if pred == PEnofail { CheckMore(g, p, pred, d, d'); }
    case TSeq(p1, p2) =>
      CheckMore(g, p1, pred, d, d');
      if CheckAux(g, p1, pred, d) { CheckMore(g, p2, pred, d, d'); }
    case TChoice(p1, p2) =>
      CheckMore(g, p2, pred, d, d');
      if !CheckAux(g, p2, pred, d) { CheckMore(g, p1, pred, d, d'); }
    case TCapture(_, _, p) => CheckMore(g, p, pred, d, d');
    case TCall(k) => if k < |g| { CheckMore(g, g[k], pred, d - 1, d' - 1); }
    case _ =>
  }

  lemma {:induction false} FirstMore(g: seq<Tree>, t: Tree, fl: Charset, d: nat, d': nat)
    requires FirstEnds(g, t, d) && d <= d'
    ensures FirstEnds(g, t, d') && GetFirst(g, t, fl, d') == GetFirst(g, t, fl, d)
    decreases d, t
  {
    match t
    case TChoice(p1, p2) => FirstMore(g, p1, fl, d, d'); FirstMore(g, p2, fl, d, d');
    case TSeq(p1, p2) =>
      CheckMore(g, p1, PEnullable, d, d');
      FirstMore(g, p1, FULL, d, d');
      if CheckAux(g, p1, PEnullable, d) {
        FirstMore(g, p2, fl, d, d');
        FirstMore(g, p1, GetFirst(g, p2, fl, d).cs, d, d');
      }
    case TRep(p) => FirstMore(g, p, fl, d, d');
    case TCapture(_, _, p) => FirstMore(g, p, fl, d, d');
    case TAnd(p) => FirstMore(g, p, fl, d, d');
    case TNot(p) => if !IsCharset(p) { FirstMore(g, p, fl, d, d'); }
    case TBehind(_, p) => FirstMore(g, p, fl, d, d');
    case TCall(k) => if k < |g| { FirstMore(g, g[k], fl, d - 1, d' - 1); }
    case _ =>
  }

  lemma {:induction false} HeadMore(g: seq<Tree>, t: Tree, d: nat, d': nat)
    requires HeadEnds(g, t, d) && d <= d'
    ensures HeadEnds(g, t, d') && HeadFail(g, t, d') == HeadFail(g, t, d)
    decreases d, t
  {
    match t
    case TCapture(_, _, p) => HeadMore(g, p, d, d');
    case TAnd(p) => HeadMore(g, p, d, d');
    case TCall(k) => if k < |g| { HeadMore(g, g[k], d - 1, d' - 1); }
    case TSeq(p1, p2) =>
      CheckMore(g, p2, PEnofail, d, d');
      if CheckAux(g, p2, PEnofail, d) { HeadMore(g, p1, d, d'); }
    case TChoice(p1, p2) =>
      HeadMore(g, p1, d, d');
      if HeadFail(g, p1, d) { HeadMore(g, p2, d, d'); }
    case _ =>
  }

  // ----- the search for captures -----

  datatype CapSearch = HasCap | NoCap | Endless

  /** 'hascaptures', cut at the first call beyond d nested ones (then the result is Endless). A call leads to the
      node of its rule, whose second sibling is the next rule, so a call also inspects every later rule of the
      grammar. */
  function Search(g: seq<Tree>, t: Tree, d: nat): CapSearch
    decreases d, t, 0
  {
    match t
    case TCapture(_, _, _) => HasCap
    case TCall(k) => if d == 0 then Endless else if k < |g| then SearchRules(g, g[k..], d - 1) else NoCap
    case TGrammar(rules) => SearchRules(rules, rules, d)
    case TRep(p) => Search(g, p, d)
    case TNot(p) => Search(g, p, d)
    case TAnd(p) => Search(g, p, d)
    case TBehind(_, p) => Search(g, p, d)
    case TSeq(p1, p2) => var r := Search(g, p1, d); if r == NoCap then Search(g, p2, d) else r
    case TChoice(p1, p2) => var r := Search(g, p1, d); if r == NoCap then Search(g, p2, d) else r
    case _ => NoCap
  }

  /** The search through a list of rules of g. */
  function SearchRules(g: seq<Tree>, rs: seq<Tree>, d: nat): CapSearch
    decreases d, rs, 1
  {
    if rs == [] then NoCap else var r := Search(g, rs[0], d); if r == NoCap then SearchRules(g, rs[1..], d) else r
  }

  function Numbers(n: nat): (s: set<nat>)
    ensures forall k: int :: k in s <==> 0 <= k < n
  {
    if n == 0 then {} else Numbers(n - 1) + {n - 1}
  }

  /** The same search with the set of rules that are being searched: to enter one of them again is to search for
      ever. */
  function Visit(g: seq<Tree>, t: Tree, path: set<nat>): CapSearch
    decreases Height(g, t), Numbers(|g|) - path, 1, t
  {
    match t
    case TCapture(_, _, _) => HasCap
    case TCall(k) => VisitFrom(g, k, path)
    case TGrammar(rules) => VisitFrom(rules, 0, {})
    case TRep(p) => Visit(g, p, path)
    case TNot(p) => Visit(g, p, path)
    case TAnd(p) => Visit(g, p, path)
    case TBehind(_, p) => Visit(g, p, path)
    case TSeq(p1, p2) => var r := Visit(g, p1, path); if r == NoCap then Visit(g, p2, path) else r
    case TChoice(p1, p2) => var r := Visit(g, p1, path); if r == NoCap then Visit(g, p2, path) else r
    case _ => NoCap
  }

  function VisitFrom(g: seq<Tree>, k: nat, path: set<nat>): CapSearch
    decreases NestingAll(g), Numbers(|g|) - path, 0
  {
    if k >= |g| then NoCap
    else if k in path then Endless
    else
      var r := Visit(g, g[k], path + {k});
      if r == NoCap then VisitFrom(g, k + 1, path + {k}) else r
  }

  /** The pattern has captures (or the search for them does not end). */
  predicate HasCaptures(g: seq<Tree>, t: Tree) {
    Visit(g, t, {}) != NoCap
  }

  /** Whether the code generated for t depends on its follow set. */
  predicate NeedFollow(t: Tree) {
    match t
    case TChoice(_, _) => true
    case TRep(_) => true
    case TCapture(_, _, p) => NeedFollow(p)
    case TSeq(_, p2) => NeedFollow(p2)
    case _ => false
  }

  // ----- trees the library builds -----

  /** What the constructors of lptree.c guarantee: calls have a rule, look-behind bodies have the
      fixed length recorded for them and no captures, capture kinds fit in 4 bits and are not Cclose.
      They do not guarantee that the number of a called rule fits in a byte; see Limits.WideGrammarIsWrong. */
  predicate Wf(g: seq<Tree>, t: Tree)
    decreases t
  {
    match t
    case TRep(p) => Wf(g, p)
    case TNot(p) => Wf(g, p)
    case TAnd(p) => Wf(g, p)
    case TSeq(p1, p2) => Wf(g, p1) && Wf(g, p2)
    case TChoice(p1, p2) => Wf(g, p1) && Wf(g, p2)
    case TBehind(n, p) => Wf(g, p) && FixedLen(g, p) == n && !HasCaptures(g, p)
    case TCapture(kind, _, p) => Wf(g, p) && kind < 16 && kind != CCLOSE
    case TCall(k) => k < |g| && k < RULENUMBERS
    case TGrammar(rules) => rules != [] && forall k :: 0 <= k < |rules| ==> Wf(rules, rules[k])
    case _ => true
  }

  // ----- what the analyses promise -----

  /** Not nullable: every match consumes input. No-fail: no match fails. */
  lemma {:induction false} CheckAuxSound(g: seq<Tree>, t: Tree, d: nat, s: seq<Byte>, i: nat, n: nat)
    requires i <= |s|
    ensures var r := Eval(g, t, s, i, n);
            && (!CheckAux(g, t, PEnullable, d) && r.Yes? ==> r.j > i)
            && (CheckAux(g, t, PEnofail, d) ==> r != No)
    decreases n, t, |s| - i
  {
    match t
    case TSeq(p1, p2) =>
      CheckAuxSound(g, p1, d, s, i, n);
      var r := Eval(g, p1, s, i, n);
      if r.Yes? { CheckAuxSound(g, p2, d, s, r.j, n); }
    case TRep(p) =>
      var r := Eval(g, p, s, i, n);
      if r.Yes? && r.j > i { CheckAuxSound(g, t, d, s, r.j, n); }
    case TChoice(p1, p2) =>
      CheckAuxSound(g, p1, d, s, i, n);
      CheckAuxSound(g, p2, d, s, i, n);
    case TAnd(p) => CheckAuxSound(g, p, d, s, i, n);
    case TCapture(_, _, p) => CheckAuxSound(g, p, d, s, i, n);
    case TCall(k) => if n > 0 && k < |g| && d > 0 { CheckAuxSound(g, g[k], d - 1, s, i, n - 1); }
    case TGrammar(rules) => if rules != [] { CheckAuxSound(rules, rules[0], DEPTH, s, i, n); }
    case _ =>
  }

  /** A pattern of fixed length always consumes that many characters. */
  lemma {:induction false} FixedLenSound(g: seq<Tree>, t: Tree, count: nat, len: nat, s: seq<Byte>, i: nat, n: nat)
    requires i <= |s|
    requires FixedLenX(g, t, count, len) >= 0
    ensures var r := Eval(g, t, s, i, n); r.Yes? ==> r.j - i == FixedLenX(g, t, count, len) - len
    decreases n, t, |s| - i
  {
    match t
    case TSeq(p1, p2) =>
      FixedLenSound(g, p1, count, len, s, i, n);
      var r := Eval(g, p1, s, i, n);
      if r.Yes? { FixedLenSound(g, p2, count, FixedLenX(g, p1, count, len), s, r.j, n); }
    case TChoice(p1, p2) =>
      FixedLenSound(g, p1, count, len, s, i, n);
      FixedLenSound(g, p2, count, len, s, i, n);
    case TCapture(_, _, p) => FixedLenSound(g, p, count, len, s, i, n);
    case TCall(k) => if n > 0 { FixedLenSound(g, g[k], count + 1, len, s, i, n - 1); }
    case TGrammar(rules) => FixedLenSound(rules, rules[0], count, len, s, i, n);
    case _ =>
  }

  // ----- when the search for captures ends -----

  /** A search that ends is not changed by a larger bound. */
  lemma {:induction false} SearchMore(g: seq<Tree>, t: Tree, d: nat, d': nat)
    requires Search(g, t, d) != Endless && d <= d'
    ensures Search(g, t, d') == Search(g, t, d)
    decreases d, t, 0
  {
    match t
    case TCall(k) => if k < |g| { SearchRulesMore(g, g[k..], d - 1, d' - 1); }
    case TGrammar(rules) => SearchRulesMore(rules, rules, d, d');
    case TRep(p) => SearchMore(g, p, d, d');
    case TNot(p) => SearchMore(g, p, d, d');
    case TAnd(p) => SearchMore(g, p, d, d');
    case TBehind(_, p) => SearchMore(g, p, d, d');
    case TSeq(p1, p2) => SearchMore(g, p1, d, d'); if Search(g, p1, d) == NoCap { SearchMore(g, p2, d, d'); }
    case TChoice(p1, p2) => SearchMore(g, p1, d, d'); if Search(g, p1, d) == NoCap { SearchMore(g, p2, d, d'); }
    case _ =>
  }

  lemma {:induction false} SearchRulesMore(g: seq<Tree>, rs: seq<Tree>, d: nat, d': nat)
    requires SearchRules(g, rs, d) != Endless && d <= d'
    ensures SearchRules(g, rs, d') == SearchRules(g, rs, d)
    decreases d, rs, 1
  {
    if rs != [] {
      SearchMore(g, rs[0], d, d');
      if Search(g, rs[0], d) == NoCap { SearchRulesMore(g, rs[1..], d, d'); }
    }
  }

  /** If no rule is entered again, the search ends, with the answer of the visit. */
  lemma {:induction false} VisitEnds(g: seq<Tree>, t: Tree, path: set<nat>) returns (d: nat)
    requires Visit(g, t, path) != Endless
    ensures Search(g, t, d) == Visit(g, t, path)
    decreases Height(g, t), Numbers(|g|) - path, 1, t
  {
    d := 0;
    match t
    case TCall(k) =>
      if k < |g| { d := VisitFromEnds(g, k, path); }
      d := d + 1;
    case TGrammar(rules) =>
      d := VisitFromEnds(rules, 0, {});
      assert rules[0..] == rules;
    case TRep(p) => d := VisitEnds(g, p, path);
    case TNot(p) => d := VisitEnds(g, p, path);
    case TAnd(p) => d := VisitEnds(g, p, path);
    case TBehind(_, p) => d := VisitEnds(g, p, path);
    case TSeq(p1, p2) => d := VisitBoth(g, p1, p2, t, path);
    case TChoice(p1, p2) => d := VisitBoth(g, p1, p2, t, path);
    case _ =>
  }

  lemma {:induction false} VisitBoth(g: seq<Tree>, p1: Tree, p2: Tree, t: Tree, path: set<nat>) returns (d: nat)
    requires (t == TSeq(p1, p2) || t == TChoice(p1, p2)) && Visit(g, t, path) != Endless
    ensures Search(g, t, d) == Visit(g, t, path)
    decreases Height(g, t), Numbers(|g|) - path, 1, t, 0
  {
    d := VisitEnds(g, p1, path);
    if Visit(g, p1, path) == NoCap {
      var d2 := VisitEnds(g, p2, path);
      SearchMore(g, p1, d, Larger(d, d2));
      SearchMore(g, p2, d2, Larger(d, d2));
      d := Larger(d, d2);
    }
  }

  lemma {:induction false} VisitFromEnds(g: seq<Tree>, k: nat, path: set<nat>) returns (d: nat)
    requires k <= |g| && VisitFrom(g, k, path) != Endless
    ensures SearchRules(g, g[k..], d) == VisitFrom(g, k, path)
    decreases NestingAll(g), Numbers(|g|) - path, 0
  {
    d := 0;
    if k < |g| {
      assert g[k..][0] == g[k] && g[k..][1..] == g[k + 1..];
      d := VisitEnds(g, g[k], path + {k});
      if Visit(g, g[k], path + {k}) == NoCap {
        var d2 := VisitFromEnds(g, k + 1, path + {k});
        SearchMore(g, g[k], d, Larger(d, d2));
        SearchRulesMore(g, g[k + 1..], d2, Larger(d, d2));
        d := Larger(d, d2);
      }
    }
  }

  /** The search through the rules from m on ends within the bound. */
  ghost predicate EndsFrom(g: seq<Tree>, m: nat, d: int) {
    m < |g| && d >= 0 && SearchRules(g, g[m..], d) != Endless
  }

  lemma EndsLater(g: seq<Tree>, m: nat, d: int, d': int)
    requires EndsFrom(g, m, d) && d <= d'
    ensures EndsFrom(g, m, d')
  {
    SearchRulesMore(g, g[m..], d, d');
  }

  /** Where both have an answer, it is the same. */
  lemma SearchIsVisit(g: seq<Tree>, t: Tree, path: set<nat>, d: nat)
    requires Visit(g, t, path) != Endless && Search(g, t, d) != Endless
    ensures Search(g, t, d) == Visit(g, t, path)
  {
    var e := VisitEnds(g, t, path);
    SearchMore(g, t, d, Larger(d, e));
    SearchMore(g, t, e, Larger(d, e));
  }

  /** If a rule on the path is entered again and yet the search ends, it has ended for that rule with a smaller
      bound. */
  lemma {:induction false} EnteredAgain(g: seq<Tree>, t: Tree, path: set<nat>, d: nat) returns (m: nat)
    requires Visit(g, t, path) == Endless && Search(g, t, d) != Endless
    ensures m in path && EndsFrom(g, m, d - 1)
    decreases d, t, 0
  {
    m := 0;
    match t
    case TCall(k) =>
      m := EnteredFrom(g, k, path, d - 1);
      if !EndsFrom(g, m, d - 1) { EndsLater(g, m, d - 2, d - 1); }
    case TGrammar(rules) =>
      assert rules[0..] == rules;
      m := EnteredFrom(rules, 0, {}, d);
    case TRep(p) => m := EnteredAgain(g, p, path, d);
    case TNot(p) => m := EnteredAgain(g, p, path, d);
    case TAnd(p) => m := EnteredAgain(g, p, path, d);
    case TBehind(_, p) => m := EnteredAgain(g, p, path, d);
    case TSeq(p1, p2) => m := EnteredEither(g, p1, p2, t, path, d);
    case TChoice(p1, p2) => m := EnteredEither(g, p1, p2, t, path, d);
  }

  lemma {:induction false} EnteredEither(g: seq<Tree>, p1: Tree, p2: Tree, t: Tree, path: set<nat>,
                                         d: nat) returns (m: nat)
    requires t == TSeq(p1, p2) || t == TChoice(p1, p2)
    requires Visit(g, t, path) == Endless && Search(g, t, d) != Endless
    ensures m in path && EndsFrom(g, m, d - 1)
    decreases d, t, 0, 0
  {
    if Visit(g, p1, path) == Endless {
      m := EnteredAgain(g, p1, path, d);
    } else {
      SearchIsVisit(g, p1, path, d);
      m := EnteredAgain(g, p2, path, d);
    }
  }

  lemma {:induction false} EnteredFrom(g: seq<Tree>, k: nat, path: set<nat>, d: nat) returns (m: nat)
    requires k <= |g| && VisitFrom(g, k, path) == Endless && SearchRules(g, g[k..], d) != Endless
    ensures m in path && ((k <= m && EndsFrom(g, m, d)) || EndsFrom(g, m, d - 1))
    decreases d, g[k..], 1
  {
    assert g[k..][0] == g[k] && g[k..][1..] == g[k + 1..];
    if k in path {
      m := k;
    } else {
      if Visit(g, g[k], path + {k}) == Endless {
        m := EnteredAgain(g, g[k], path + {k}, d);
      } else {
        SearchIsVisit(g, g[k], path + {k}, d);
        m := EnteredFrom(g, k + 1, path + {k}, d);
      }
      if m == k {
        m := EnteredFrom(g, k, path, d - 1);
        if !EndsFrom(g, m, d - 1) { EndsLater(g, m, d - 2, d - 1); }
      }
    }
  }

  /** The search for captures ends exactly if, in the order in which it goes, no rule is entered while it is being
      searched; it ends with the answer of the visit. */
  lemma SearchEnds(g: seq<Tree>, t: Tree)
    ensures (exists d: nat :: Search(g, t, d) != Endless) <==> Visit(g, t, {}) != Endless
    ensures forall d: nat :: Search(g, t, d) != Endless ==> Search(g, t, d) == Visit(g, t, {})
  {
    if Visit(g, t, {}) != Endless {
      var d := VisitEnds(g, t, {});
      forall d: nat | Search(g, t, d) != Endless ensures Search(g, t, d) == Visit(g, t, {}) {
        SearchIsVisit(g, t, {}, d);
      }
    } else {
      forall d: nat ensures Search(g, t, d) == Endless {
        if Search(g, t, d) != Endless { var m := EnteredAgain(g, t, {}, d); }
      }
    }
  }

  /** The searches the code generator makes about t end: those about the bodies of look-aheads and captures whose
      length is fixed and not too large. */
  predicate SearchesEnd(g: seq<Tree>, t: Tree)
    decreases t
  {
    match t
    case TRep(p) => SearchesEnd(g, p)
    case TNot(p) => SearchesEnd(g, p)
    case TBehind(_, p) => SearchesEnd(g, p)
    case TAnd(p) => SearchesEnd(g, p) && (0 <= FixedLen(g, p) <= MAXBEHIND ==> Visit(g, p, {}) != Endless)
    case TCapture(_, _, p) => SearchesEnd(g, p) && (0 <= FixedLen(g, p) <= MAXOFF ==> Visit(g, p, {}) != Endless)
    case TSeq(p1, p2) => SearchesEnd(g, p1) && SearchesEnd(g, p2)
    case TChoice(p1, p2) => SearchesEnd(g, p1) && SearchesEnd(g, p2)
    case TGrammar(rules) => forall k :: 0 <= k < |rules| ==> SearchesEnd(rules, rules[k])
    case _ => true
  }

  /** 'hascaptures' as it is written, on a pattern on which it ends; 'd' only witnesses that. */
  method FindCaptures(g: seq<Tree>, t: Tree, ghost d: nat) returns (found: bool)
    requires Search(g, t, d) != Endless
    ensures found <==> Search(g, t, d) == HasCap
    decreases d, t, 0
  {
    match t
    case TCapture(_, _, _) => return true;
    case TCall(k) => if k < |g| { found := FindInRules(g, g[k..], d - 1); } else { found := false; }
    case TGrammar(rules) => found := FindInRules(rules, rules, d);
    case TRep(p) => found := FindCaptures(g, p, d);
    case TNot(p) => found := FindCaptures(g, p, d);
    case TAnd(p) => found := FindCaptures(g, p, d);
    case TBehind(_, p) => found := FindCaptures(g, p, d);
    case TSeq(p1, p2) =>
      found := FindCaptures(g, p1, d);
      if !found { found := FindCaptures(g, p2, d); }
    case TChoice(p1, p2) =>
      found := FindCaptures(g, p1, d);
      if !found { found := FindCaptures(g, p2, d); }
    case _ => return false;
  }

  method FindInRules(g: seq<Tree>, rs: seq<Tree>, ghost d: nat) returns (found: bool)
    requires SearchRules(g, rs, d) != Endless
    ensures found <==> SearchRules(g, rs, d) == HasCap
    decreases d, rs, 1
  {
    if rs == [] { return false; }
    found := FindCaptures(g, rs[0], d);
    if !found { found := FindInRules(g, rs[1..], d); }
  }

  /** A pattern without captures leaves none. */
  lemma NoCapturesSound(g: seq<Tree>, t: Tree, s: seq<Byte>, i: nat, n: nat)
    requires i <= |s|
    requires !HasCaptures(g, t)
    ensures var r := Eval(g, t, s, i, n); r.Yes? ==> r.caps == []
  {
    var d := VisitEnds(g, t, {});
    NoneFound(g, t, d, s, i, n);
  }

  lemma {:induction false} NoneFound(g: seq<Tree>, t: Tree, d: nat, s: seq<Byte>, i: nat, n: nat)
    requires i <= |s|
    requires Search(g, t, d) == NoCap
    ensures var r := Eval(g, t, s, i, n); r.Yes? ==> r.caps == []
    decreases n, t, |s| - i
  {
    match t
    case TSeq(p1, p2) =>
      NoneFound(g, p1, d, s, i, n);
      var r := Eval(g, p1, s, i, n);
      if r.Yes? { NoneFound(g, p2, d, s, r.j, n); }
    case TRep(p) =>
      NoneFound(g, p, d, s, i, n);
      var r := Eval(g, p, s, i, n);
      if r.Yes? && r.j > i { NoneFound(g, t, d, s, r.j, n); }
    case TChoice(p1, p2) =>
      NoneFound(g, p1, d, s, i, n);
      NoneFound(g, p2, d, s, i, n);
    case TCall(k) => if n > 0 && k < |g| { NoneFound(g, g[k], d - 1, s, i, n - 1); }
    case TGrammar(rules) => if rules != [] { NoneFound(rules, rules[0], d, s, i, n); }
    case _ =>
  }

  /** The verdict of a first set on one starting point: outside the set a pattern fails, or
      matches nothing in front of a character outside its follow set; without 'e' it fails at the end. */
  ghost predicate FirstVerdict(f: First, fl: Charset, s: seq<Byte>, i: nat, r: Res)
    requires i <= |s|
  {
    && (i < |s| && s[i] !in f.cs ==> r.Yes? ==> r.j == i && s[i] !in fl)
    && (i == |s| && !f.e ==> !r.Yes?)
  }

  lemma {:induction false} FirstSound(g: seq<Tree>, t: Tree, fl: Charset, d: nat, s: seq<Byte>, i: nat, n: nat)
    requires i <= |s|
    ensures FirstVerdict(GetFirst(g, t, fl, d), fl, s, i, Eval(g, t, s, i, n))
    decreases n, t, |s| - i
  {
    match t
    case TSeq(p1, p2) =>
      var r := Eval(g, p1, s, i, n);
      if !CheckAux(g, p1, PEnullable, d) {
        FirstSound(g, p1, FULL, d, s, i, n);
      } else {
        FirstSound(g, p1, GetFirst(g, p2, fl, d).cs, d, s, i, n);
        if r.Yes? { FirstSound(g, p2, fl, d, s, r.j, n); }
      }
    case TChoice(p1, p2) =>
      FirstSound(g, p1, fl, d, s, i, n);
      FirstSound(g, p2, fl, d, s, i, n);
    case TRep(p) => FirstSound(g, p, fl, d, s, i, n);
    case TAnd(p) => FirstSound(g, p, fl, d, s, i, n);
    case TCapture(_, _, p) => FirstSound(g, p, fl, d, s, i, n);
    case TCall(k) => if n > 0 && k < |g| && d > 0 { FirstSound(g, g[k], fl, d - 1, s, i, n - 1); }
    case TGrammar(rules) => if rules != [] { FirstSound(rules, rules[0], fl, DEPTH, s, i, n); }
    case _ =>
  }

  /** First sets grow with the follow set, and the empty-subject flag does not depend on it. */
  lemma {:induction false} FirstMono(g: seq<Tree>, t: Tree, fl: Charset, fl': Charset, d: nat)
    requires fl <= fl'
    ensures GetFirst(g, t, fl, d).cs <= GetFirst(g, t, fl', d).cs
    ensures GetFirst(g, t, fl, d).e == GetFirst(g, t, fl', d).e
    decreases Height(g, t), d, t
  {
    match t
    case TSeq(p1, p2) =>
      if CheckAux(g, p1, PEnullable, d) {
        FirstMono(g, p2, fl, fl', d);
        FirstMono(g, p1, GetFirst(g, p2, fl, d).cs, GetFirst(g, p2, fl', d).cs, d);
      }
    case TChoice(p1, p2) =>
      FirstMono(g, p1, fl, fl', d);
      FirstMono(g, p2, fl, fl', d);
    case TRep(p) => FirstMono(g, p, fl, fl', d);
    case TAnd(p) => FirstMono(g, p, fl, fl', d);
    case TCapture(_, _, p) => FirstMono(g, p, fl, fl', d);
    case TCall(k) => if d > 0 && k < |g| { FirstMono(g, g[k], fl, fl', d - 1); }
    case TGrammar(rules) => if rules != [] { FirstMono(rules, rules[0], fl, fl', DEPTH); }
    case _ =>
  }

  /** A head-fail pattern never accepts the empty subject. */
  lemma {:induction false} HeadFailNotEmpty(g: seq<Tree>, t: Tree, fl: Charset, d: nat)
    requires HeadFail(g, t, d)
    ensures !GetFirst(g, t, fl, d).e
    decreases Height(g, t), d, t
  {
    match t
    case TSeq(p1, p2) =>
      HeadFailNotEmpty(g, p1, FULL, d);
      HeadFailNotEmpty(g, p1, GetFirst(g, p2, fl, d).cs, d);
    case TChoice(p1, p2) =>
      HeadFailNotEmpty(g, p1, fl, d);
      HeadFailNotEmpty(g, p2, fl, d);
    case TAnd(p) => HeadFailNotEmpty(g, p, fl, d);
    case TCapture(_, _, p) => HeadFailNotEmpty(g, p, fl, d);
    case TCall(k) => HeadFailNotEmpty(g, g[k], fl, d - 1);
    case TGrammar(rules) => HeadFailNotEmpty(rules, rules[0], fl, DEPTH);
    case _ =>
  }

  /** Where a head-fail pattern has an answer, it matches exactly when the next character exists and is in its first
      set. */
  lemma {:induction false} HeadFailExact(g: seq<Tree>, t: Tree, d: nat, s: seq<Byte>, i: nat, n: nat)
    requires i <= |s|
    requires HeadFail(g, t, d)
    requires Eval(g, t, s, i, n) != Out
    ensures Eval(g, t, s, i, n).Yes? <==> i < |s| && s[i] in GetFirst(g, t, FULL, d).cs
    decreases n, t, |s| - i
  {
    FirstSound(g, t, FULL, d, s, i, n);
    HeadFailNotEmpty(g, t, FULL, d);
    if i < |s| && s[i] in GetFirst(g, t, FULL, d).cs {
      HeadFailTakes(g, t, d, s, i, n);
    }
  }

  lemma {:induction false} HeadFailTakes(g: seq<Tree>, t: Tree, d: nat, s: seq<Byte>, i: nat, n: nat)
    requires i < |s|
    requires HeadFail(g, t, d)
    requires s[i] in GetFirst(g, t, FULL, d).cs
    ensures Eval(g, t, s, i, n) != No
    decreases n, t, |s| - i
  {
    match t
    case TSeq(p1, p2) =>
      FirstMono(g, p1, GetFirst(g, p2, FULL, d).cs, FULL, d);
      HeadFailTakes(g, p1, d, s, i, n);
      var r := Eval(g, p1, s, i, n);
      if r.Yes? { CheckAuxSound(g, p2, d, s, r.j, n); }
    case TChoice(p1, p2) =>
      if s[i] in GetFirst(g, p1, FULL, d).cs {
        HeadFailTakes(g, p1, d, s, i, n);
      } else {
        HeadFailTakes(g, p2, d, s, i, n);
      }
    case TAnd(p) => HeadFailTakes(g, p, d, s, i, n);
    case TCapture(_, _, p) => HeadFailTakes(g, p, d, s, i, n);
    case TCall(k) => if n > 0 { HeadFailTakes(g, g[k], d - 1, s, i, n - 1); }
    case TGrammar(rules) => HeadFailTakes(rules, rules[0], DEPTH, s, i, n);
    case _ =>
  }
}
