/** The pattern operators of lptree.c: the simplifications they make, and the trees 'p^n' stands for. */
module Build {
  import opened Common
  import opened PegTree
  import opened Peg
  import opened Analysis
  import opened FlatTree
  import opened GrammarCheck

  // ----- simplifications -----

  /** 'lp_seq'. */
  function Sequence(t1: Tree, t2: Tree): Tree {
    if t1.TFalse? || t2.TTrue? then t1 else if t1.TTrue? then t2 else TSeq(t1, t2)
  }

  /** 'lp_choice'. */
  function Choice(t1: Tree, t2: Tree): Tree {
    if IsCharset(t1) && IsCharset(t2) then TSet(ToCharset(t1) + ToCharset(t2))
    else if CheckAux([], t1, PEnofail, DEPTH) || t2.TFalse? then t1
    else if t1.TFalse? then t2
    else TChoice(t1, t2)
  }

  /** 'lp_sub'. */
  function Difference(t1: Tree, t2: Tree): Tree {
    if IsCharset(t1) && IsCharset(t2) then TSet(ToCharset(t1) - ToCharset(t2)) else TSeq(TNot(t2), t1)
  }

  lemma CharsetEval(g: seq<Tree>, t: Tree, s: seq<Byte>, i: nat, n: nat)
    requires IsCharset(t) && i <= |s|
    ensures Eval(g, t, s, i, n) == if i < |s| && s[i] in ToCharset(t) then Yes(i + 1, []) else No
  {
  }

  /** A simplified pattern matches exactly what the plain one does, with the same captures, in every grammar. */
  lemma SequenceEval(g: seq<Tree>, t1: Tree, t2: Tree, s: seq<Byte>, i: nat, n: nat)
    requires i <= |s|
    ensures Eval(g, Sequence(t1, t2), s, i, n) == Eval(g, TSeq(t1, t2), s, i, n)
  {
    var r := Eval(g, t1, s, i, n);
    if r.Yes? && t2.TTrue? { assert r.caps + [] == r.caps; }
    var r2 := Eval(g, t2, s, i, n);
    if r2.Yes? { assert [] + r2.caps == r2.caps; }
  }

  lemma ChoiceEval(g: seq<Tree>, t1: Tree, t2: Tree, s: seq<Byte>, i: nat, n: nat)
    requires i <= |s|
    ensures Eval(g, Choice(t1, t2), s, i, n) == Eval(g, TChoice(t1, t2), s, i, n)
  {
    if IsCharset(t1) && IsCharset(t2) {
      CharsetEval(g, t1, s, i, n);
      CharsetEval(g, t2, s, i, n);
    } else if CheckAux([], t1, PEnofail, DEPTH) {
      NofailAnywhere(g, t1, DEPTH);
      CheckAuxSound(g, t1, DEPTH, s, i, n);
    }
  }

  /** A pattern that cannot fail outside any grammar cannot fail inside one: its calls do not count. */
  lemma {:induction false} NofailAnywhere(g: seq<Tree>, t: Tree, d: nat)
    ensures CheckAux([], t, PEnofail, d) ==> CheckAux(g, t, PEnofail, d)
    decreases d, t
  {
    match t
    case TSeq(p1, p2) => NofailAnywhere(g, p1, d); NofailAnywhere(g, p2, d);
    case TChoice(p1, p2) => NofailAnywhere(g, p1, d); NofailAnywhere(g, p2, d);
    case TAnd(p) => NofailAnywhere(g, p, d);
    case TCapture(_, _, p) => NofailAnywhere(g, p, d);
    case _ =>
  }

  lemma DifferenceEval(g: seq<Tree>, t1: Tree, t2: Tree, s: seq<Byte>, i: nat, n: nat)
    requires i <= |s|
    ensures Eval(g, Difference(t1, t2), s, i, n) == Eval(g, TSeq(TNot(t2), t1), s, i, n)
  {
    if IsCharset(t1) && IsCharset(t2) {
      CharsetEval(g, t1, s, i, n);
      CharsetEval(g, t2, s, i, n);
    }
  }

  // ----- p^n -----

  /** n copies of t and then as many more as possible. */
  function AtLeast(n: nat, t: Tree): Tree {
    if n == 0 then TRep(t) else TSeq(t, AtLeast(n - 1, t))
  }

  /** As many copies of t as possible, but no more than n. */
  function AtMost(n: nat, t: Tree): Tree
    requires n > 0
  {
    if n == 1 then TChoice(t, TTrue) else TChoice(TSeq(t, AtMost(n - 1, t)), TTrue)
  }

  function Star(n: int, t: Tree): Tree {
    if n >= 0 then AtLeast(n, t) else AtMost(-n, t)
  }

  /** Up to m copies of t from s[i..] on: how many matched, where they end, what they captured; NoRun if one gives no
      answer. */
  datatype Run = NoRun | Copies(count: nat, j: nat, caps: seq<Cap>)

  function Greedy(g: seq<Tree>, t: Tree, s: seq<Byte>, i: nat, n: nat, m: nat): (r: Run)
    requires i <= |s|
    ensures r.Copies? ==> i <= r.j <= |s| && r.count <= m
    decreases m
  {
    if m == 0 then Copies(0, i, [])
    else match Eval(g, t, s, i, n)
      case Out => NoRun
      case No => Copies(0, i, [])
      case Yes(j, c) =>
        match Greedy(g, t, s, j, n, m - 1)
        case NoRun => NoRun
        case Copies(k, j', c') => Copies(k + 1, j', c + c')
  }

  /** "At most n" takes all the copies it can get, up to n, and never fails. */
  lemma {:induction false} AtMostMeans(g: seq<Tree>, t: Tree, s: seq<Byte>, i: nat, n: nat, m: nat)
    requires i <= |s| && m > 0
    ensures var r := Greedy(g, t, s, i, n, m);
      Eval(g, AtMost(m, t), s, i, n) == if r.NoRun? then Out else Yes(r.j, r.caps)
    decreases m
  {
    hide Eval;
    var r := Eval(g, t, s, i, n);
    if m == 1 {
      OrEval(g, t, TTrue, s, i, n);
      if r.Yes? { assert r.caps + [] == r.caps; }
    } else {
      var rest := AtMost(m - 1, t);
      OrEval(g, TSeq(t, rest), TTrue, s, i, n);
      SeqEval(g, t, rest, s, i, n);
      if r.Yes? { AtMostMeans(g, t, s, r.j, n, m - 1); }
    }
  }

  /** "At least n" fails if there are fewer than n copies; otherwise it goes on as a plain repetition after n of
      them. */
  lemma {:induction false} AtLeastMeans(g: seq<Tree>, t: Tree, s: seq<Byte>, i: nat, n: nat, m: nat)
    requires i <= |s|
    ensures var r := Greedy(g, t, s, i, n, m);
      Eval(g, AtLeast(m, t), s, i, n) ==
        if r.NoRun? then Out else if r.count < m then No else
        After(Yes(r.j, r.caps), Eval(g, TRep(t), s, r.j, n))
    decreases m
  {
    hide Eval;
    if m == 0 {
      var r := Eval(g, TRep(t), s, i, n);
      if r.Yes? { assert [] + r.caps == r.caps; }
    } else {
      SeqEval(g, t, AtLeast(m - 1, t), s, i, n);
      var r1 := Eval(g, t, s, i, n);
      if r1.Yes? {
        AtLeastMeans(g, t, s, r1.j, n, m - 1);
        var r2 := Greedy(g, t, s, r1.j, n, m - 1);
        if r2.Copies? {
          var r3 := Eval(g, TRep(t), s, r2.j, n);
          if r3.Yes? { assert r1.caps + (r2.caps + r3.caps) == (r1.caps + r2.caps) + r3.caps; }
        }
      }
    }
  }

  lemma OneMore(n: nat, x: nat)
    ensures (n + 1) * x == n * x + x
  {
  }

  lemma AtLeastNone(t: Tree)
    ensures Size(AtLeast(0, t)) == Size(t) + 1
  {
  }

  lemma AtMostOne(t: Tree)
    ensures Size(AtMost(1, t)) == Size(t) + 2
  {
  }

  lemma {:induction false} AtLeastSize(n: nat, t: Tree)
    ensures Size(AtLeast(n, t)) == (n + 1) * (Size(t) + 1)
  {
    hide Size;
    if n > 0 {
      AtLeastSize(n - 1, t);
      AtLeastNext(n, t);
      OneMore(n, Size(t) + 1);
    } else {
      AtLeastNone(t);
    }
  }

  lemma {:induction false} AtMostSize(n: nat, t: Tree)
    requires n > 0
    ensures Size(AtMost(n, t)) == n * (Size(t) + 3) - 1
  {
    hide Size, AtMost;
    AtMostOne(t);
    if n > 1 {
      AtMostSize(n - 1, t);
      AtMostNext(n, t);
      OneMore(n - 1, Size(t) + 3);
    }
  }

  // ----- the array 'lp_star' fills -----

  lemma AtLeastNext(n: nat, t: Tree)
    requires n > 0
    ensures Size(AtLeast(n, t)) == 1 + Size(t) + Size(AtLeast(n - 1, t))
  {
  }

  lemma AtMostNext(n: nat, t: Tree)
    requires n > 1
    ensures Size(AtMost(n, t)) == 3 + Size(t) + Size(AtMost(n - 1, t)) && Size(AtMost(1, t)) == 2 + Size(t)
  {
  }

  /** 'memcpy' of a tree into an array. */
  method CopyTree(a: array<Node>, k: nat, nodes: seq<Node>, ghost t: Tree)
    requires k + |nodes| <= a.Length && |nodes| == Size(t) && Laid(nodes, 0, t, Pending)
    modifies a
    ensures Laid(a[..], k, t, Pending)
    ensures forall x :: 0 <= x < a.Length && !(k <= x < k + |nodes|) ==> a[x] == old(a[x])
  {
    var i := 0;
    while i < |nodes|
      invariant i <= |nodes|
      invariant forall x :: k <= x < k + i ==> a[x] == nodes[x - k]
      invariant forall x :: 0 <= x < a.Length && !(k <= x < k + i) ==> a[x] == old(a[x])
    {
      a[k + i] := nodes[i];
      i := i + 1;
    }
    assert Agree(nodes, 0, a[..], k, Size(t));
    LaidMove(nodes, 0, a[..], k, t, Pending);
  }

  /** The nodes up to e are 'count' sequence nodes, each followed by a copy of t. */
  ghost predicate SeqChain(s: seq<Node>, e: nat, count: nat, t: Tree)
    decreases count
  {
    if count == 0 then e == 0 else
      var k := e - 1 - Size(t);
      k >= 0 && Head(s, k, SEQ) && s[k].ps == 1 + Size(t) && Laid(s, k + 1, t, Pending) && SeqChain(s, k, count - 1, t)
  }

  lemma {:induction false} SeqChainKept(s: seq<Node>, s': seq<Node>, e: nat, count: nat, t: Tree)
    requires SeqChain(s, e, count, t) && e <= |s| == |s'| && forall x :: 0 <= x < e ==> s'[x] == s[x]
    ensures SeqChain(s', e, count, t)
    decreases count
  {
    hide Laid, Size;
    if count > 0 {
      LaidMove(s, e - Size(t), s', e - Size(t), t, Pending);
      SeqChainKept(s, s', e - 1 - Size(t), count - 1, t);
    }
  }

  lemma {:induction false} SeqChainEnds(s: seq<Node>, e: nat, count: nat, n: nat, t: Tree)
    requires SeqChain(s, e, count, t) && Laid(s, e, AtLeast(n, t), Pending)
    ensures Laid(s, 0, AtLeast(n + count, t), Pending)
    decreases count
  {
    hide Laid, Size;
    if count > 0 {
      TwoLaid(s, e - 1 - Size(t), AtLeast(n + 1, t), Pending);
      SeqChainEnds(s, e - 1 - Size(t), count - 1, n + 1, t);
    }
  }

  /** 'lp_star' with n >= 0. */
  method StarAtLeast(nodes: seq<Node>, n: nat, ghost t: Tree) returns (a: array<Node>)
    requires |nodes| == Size(t) && Laid(nodes, 0, t, Pending)
    ensures fresh(a) && a.Length == Size(AtLeast(n, t)) && Laid(a[..], 0, AtLeast(n, t), Pending)
  {
    hide Laid, Size, AtLeast;
    var size1 := |nodes|;
    AtLeastSize(n, t);
    a := new Node[(n + 1) * (size1 + 1)];
    var tree: nat, left := 0, n;
    while left > 0
      invariant 0 <= left <= n && tree + Size(AtLeast(left, t)) == a.Length && SeqChain(a[..], tree, n - left, t)
    {
      AtLeastNext(left, t);
      tree := SeqAux(a, tree, nodes, n - left, t);
      left := left - 1;
    }
    StarEnd(a, tree, nodes, n, t);
  }

  /** 'seqaux': a sequence node and its first child; returns the place of the second. */
  method SeqAux(a: array<Node>, tree: nat, nodes: seq<Node>, ghost count: nat, ghost t: Tree) returns (next: nat)
    requires |nodes| == Size(t) && Laid(nodes, 0, t, Pending) && tree + 1 + Size(t) <= a.Length
    requires SeqChain(a[..], tree, count, t)
    modifies a
    ensures next == tree + 1 + Size(t) && SeqChain(a[..], next, count + 1, t)
  {
    hide Laid, Size;
    ghost var before := a[..];
    var cap: nat, key: nat := *, *;
    a[tree] := N(SEQ, cap, key, |nodes| + 1);
    CopyTree(a, tree + 1, nodes, t);
    SeqChainKept(before, a[..], tree, count, t);
    return tree + 1 + |nodes|;
  }

  method StarEnd(a: array<Node>, tree: nat, nodes: seq<Node>, ghost n: nat, ghost t: Tree)
    requires |nodes| == Size(t) && Laid(nodes, 0, t, Pending) && tree + Size(AtLeast(0, t)) == a.Length
    requires SeqChain(a[..], tree, n, t)
    modifies a
    ensures Laid(a[..], 0, AtLeast(n, t), Pending)
  {
    hide Laid;
    ghost var before := a[..];
    var cap: nat, key: nat, ps: int := *, *, *;
    a[tree] := N(REP, cap, key, ps);
    CopyTree(a, tree + 1, nodes, t);
    OneLaid(a[..], tree, TRep(t), Pending);
    SeqChainKept(before, a[..], tree, n, t);
    SeqChainEnds(a[..], tree, n, 0, t);
  }

  /** 'count' choices around the place k of "at most n": each holds a copy of t, the next choice, and 'true' as
      second child. */
  ghost predicate ChoiceChain(s: seq<Node>, k: nat, n: nat, count: nat, t: Tree)
    requires n > 0
    decreases count
  {
    if count == 0 then k == 0 else
      var c := k - 2 - Size(t);
      c >= 0 && ChoiceLink(s, c, Size(AtMost(n, t)), t) && ChoiceChain(s, c, n + 1, count - 1, t)
  }

  /** A choice at c whose first child is a sequence of t and a tree of 'inner' nodes. */
  ghost predicate ChoiceLink(s: seq<Node>, c: nat, inner: nat, t: Tree) {
    && Head(s, c, CHOICE) && s[c].ps == 2 + Size(t) + inner && Head(s, c + 2 + Size(t) + inner, TRUE)
    && Head(s, c + 1, SEQ) && s[c + 1].ps == 1 + Size(t) && Laid(s, c + 2, t, Pending)
  }

  lemma ChoiceLinkKept(s: seq<Node>, s': seq<Node>, c: nat, inner: nat, t: Tree)
    requires ChoiceLink(s, c, inner, t) && |s| == |s'|
    requires forall x :: 0 <= x < |s| && !(c + 2 + Size(t) <= x < c + 2 + Size(t) + inner) ==> s'[x] == s[x]
    ensures ChoiceLink(s', c, inner, t)
  {
    hide Laid, Size;
    LaidMove(s, c + 2, s', c + 2, t, Pending);
  }

  lemma {:induction false} ChoiceChainKept(s: seq<Node>, s': seq<Node>, k: nat, n: nat, count: nat, t: Tree)
    requires n > 0 && ChoiceChain(s, k, n, count, t) && |s| == |s'| && k <= |s|
    requires forall x :: 0 <= x < |s| && !(k <= x < k + Size(AtMost(n, t))) ==> s'[x] == s[x]
    ensures ChoiceChain(s', k, n, count, t)
    decreases count
  {
    hide Laid, Size, AtMost, ChoiceLink;
    if count > 0 {
      AtMostNext(n + 1, t);
      ChoiceLinkKept(s, s', k - 2 - Size(t), Size(AtMost(n, t)), t);
      ChoiceChainKept(s, s', k - 2 - Size(t), n + 1, count - 1, t);
    }
  }

  lemma {:induction false} ChoiceChainEnds(s: seq<Node>, k: nat, n: nat, count: nat, t: Tree)
    requires n > 0 && ChoiceChain(s, k, n, count, t) && Laid(s, k, AtMost(n, t), Pending)
    ensures Laid(s, 0, AtMost(n + count, t), Pending)
    decreases count
  {
    hide Laid, Size;
    if count > 0 {
      var c := k - 2 - Size(t);
      ChoiceOnce(s, c, n, t);
      ChoiceChainEnds(s, c, n + 1, count - 1, t);
    }
  }

  lemma ChoiceOnce(s: seq<Node>, c: nat, n: nat, t: Tree)
    requires n > 0 && Head(s, c, CHOICE) && s[c].ps == 2 + Size(t) + Size(AtMost(n, t))
    requires Head(s, c + 1, SEQ) && s[c + 1].ps == 1 + Size(t) && Laid(s, c + 2, t, Pending)
    requires Laid(s, c + 2 + Size(t), AtMost(n, t), Pending) && Head(s, c + 2 + Size(t) + Size(AtMost(n, t)), TRUE)
    ensures Laid(s, c, AtMost(n + 1, t), Pending)
  {
    hide Laid, NodeFor, AtMost, Size;
    AtMostMore(n, t);
    var inner := TSeq(t, AtMost(n, t));
    PairFacts(inner);
    PairLaid(s, c + 1, inner);
    TrueLaid(s, c + 1 + Size(inner));
    PairLaid(s, c, TChoice(inner, TTrue));
  }

  lemma TrueLaid(s: seq<Node>, k: nat)
    requires Head(s, k, TRUE)
    ensures Laid(s, k, TTrue, Pending)
  {
  }

  /** 'lp_star' with n < 0; here n is its absolute value. */
  method StarAtMost(nodes: seq<Node>, n: nat, ghost t: Tree) returns (a: array<Node>)
    requires n > 0 && |nodes| == Size(t) && Laid(nodes, 0, t, Pending)
    ensures fresh(a) && a.Length == Size(AtMost(n, t)) && Laid(a[..], 0, AtMost(n, t), Pending)
  {
    hide Laid, Size, AtMost;
    var size1 := |nodes|;
    AtMostSize(n, t);
    a := new Node[n * (size1 + 3) - 1];
    var tree: nat, left := 0, n;
    while left > 1
      invariant 1 <= left <= n && tree + Size(AtMost(left, t)) <= a.Length
      invariant ChoiceChain(a[..], tree, left, n - left, t)
    {
      AtMostSize(left, t);
      AtMostNext(left, t);
      tree := ChoiceAux(a, tree, nodes, left, left * (size1 + 3) - 2, n - left, t);
      left := left - 1;
    }
    MostEnd(a, tree, nodes, n, t);
  }

  /** One turn of the loop: a choice with 'true' as second child, and a sequence in it. */
  method ChoiceAux(a: array<Node>, tree: nat, nodes: seq<Node>, ghost left: nat, ps: nat, ghost count: nat,
                   ghost t: Tree) returns (next: nat)
    requires left > 1 && |nodes| == Size(t) && Laid(nodes, 0, t, Pending) && ps == Size(AtMost(left, t)) - 1
    requires tree + Size(AtMost(left, t)) <= a.Length && ChoiceChain(a[..], tree, left, count, t)
    modifies a
    ensures next == tree + 2 + Size(t) && ChoiceChain(a[..], next, left - 1, count + 1, t)
  {
    hide Laid, Size, AtMost, ChoiceLink;
    AtMostNext(left, t);
    ghost var before := a[..];
    FillChoice(a, tree, nodes, ps, t);
    ChoiceChainKept(before, a[..], tree, left, count, t);
    return tree + 2 + |nodes|;
  }

  method FillChoice(a: array<Node>, tree: nat, nodes: seq<Node>, ps: nat, ghost t: Tree)
    requires |nodes| == Size(t) && Laid(nodes, 0, t, Pending) && ps >= 2 + Size(t) && tree + ps < a.Length
    modifies a
    ensures ChoiceLink(a[..], tree, ps - 2 - Size(t), t)
    ensures forall x :: 0 <= x < a.Length && !(tree <= x <= tree + ps) ==> a[x] == old(a[x])
  {
    hide Laid, Size;
    var cap: nat, key: nat, u: int := *, *, *;
    a[tree] := N(CHOICE, cap, key, ps);
    a[tree + ps] := N(TRUE, cap, key, u);
    a[tree + 1] := N(SEQ, cap, key, |nodes| + 1);
    CopyTree(a, tree + 2, nodes, t);
  }

  method MostEnd(a: array<Node>, tree: nat, nodes: seq<Node>, ghost n: nat, ghost t: Tree)
    requires n > 0 && |nodes| == Size(t) && Laid(nodes, 0, t, Pending) && tree + Size(AtMost(1, t)) <= a.Length
    requires ChoiceChain(a[..], tree, 1, n - 1, t)
    modifies a
    ensures Laid(a[..], 0, AtMost(n, t), Pending)
  {
    hide Laid, Size, NodeFor, AtMost;
    AtMostOne(t);
    ghost var before := a[..];
    var cap: nat, key: nat, u: int := *, *, *;
    a[tree] := N(CHOICE, cap, key, |nodes| + 1);
    a[tree + 1 + |nodes|] := N(TRUE, cap, key, u);
    CopyTree(a, tree + 1, nodes, t);
    OneChoice(a[..], tree, t);
    ChoiceChainKept(before, a[..], tree, 1, n - 1, t);
    ChoiceChainEnds(a[..], tree, 1, n - 1, t);
  }

  lemma OneChoice(s: seq<Node>, k: nat, t: Tree)
    requires Head(s, k, CHOICE) && s[k].ps == 1 + Size(t) && Laid(s, k + 1, t, Pending)
    requires Head(s, k + 1 + Size(t), TRUE)
    ensures Laid(s, k, AtMost(1, t), Pending)
  {
    hide Laid, AtMost, NodeFor, Size;
    OneIsOptional(t);
    TrueLaid(s, k + 1 + Size(t));
    PairLaid(s, k, TChoice(t, TTrue));
  }

  lemma AtMostMore(n: nat, t: Tree)
    requires n > 0
    ensures AtMost(n + 1, t) == TChoice(TSeq(t, AtMost(n, t)), TTrue)
  {
  }

  lemma OneIsOptional(t: Tree)
    ensures AtMost(1, t) == TChoice(t, TTrue)
  {
  }

  datatype StarResult = LoopError | Pattern(a: array<Node>)

  /** 'lp_star': the array holds the tree of p^n and nothing else; a loop over a nullable body is refused. */
  method LpStar(nodes: seq<Node>, n: int, ghost t: Tree) returns (r: StarResult)
    requires |nodes| == Size(t) && Laid(nodes, 0, t, Pending) && Fit(t)
    ensures r.LoopError? <==> n >= 0 && CheckAux([], t, PEnullable, DEPTH)
    ensures r.Pattern? ==> fresh(r.a) && r.a.Length == Size(Star(n, t)) && Laid(r.a[..], 0, Star(n, t), Pending)
    ensures r.Pattern? && !CheckLoops([], t) ==>
      Fit(Star(n, t)) && !CheckLoops([], Star(n, t)) && Calls(Star(n, t)) == Calls(t)
  {
    hide Fit, Laid, Size, CheckAux, CheckLoops, Calls;
    if n >= 0 {
      OpenCheckEnds(t, PEnullable);
      FitHasRules(t);
      NoGrammar(nodes, t);
      var nullable := CheckNodes(nodes, 0, PEnullable, [], 0, t, Pending, DEPTH);
      if nullable { return LoopError; }
      var a := StarAtLeast(nodes, n, t);
      if !CheckLoops([], t) { StarChecked(n, t); }
      return Pattern(a);
    } else {
      var a := StarAtMost(nodes, -n, t);
      if !CheckLoops([], t) { StarChecked(n, t); }
      return Pattern(a);
    }
  }

  lemma NoGrammar(nodes: seq<Node>, t: Tree)
    requires GrammarsHaveRules(t)
    ensures Inside(nodes, 0, [], 0, Pending)
  {
  }

  /** What 'lp_star' does not refuse has no empty loops. */
  lemma {:induction false} StarChecked(n: int, t: Tree)
    requires Fit(t) && (n >= 0 ==> !CheckAux([], t, PEnullable, DEPTH)) && !CheckLoops([], t)
    ensures Fit(Star(n, t)) && !CheckLoops([], Star(n, t)) && Calls(Star(n, t)) == Calls(t)
    decreases if n >= 0 then n else -n
  {
    hide CheckAux, Fit, CheckLoops, Calls, AtLeast, AtMost;
    if n > 0 {
      StarChecked(n - 1, t);
      StarUnfolds(n, t);
      PairChecked(t, AtLeast(n - 1, t));
    } else if n < -1 {
      StarChecked(n + 1, t);
      StarUnfolds(n, t);
      PairChecked(t, AtMost(-n - 1, t));
    } else {
      StarUnfolds(n, t);
      PairChecked(t, t);
    }
  }

  lemma StarUnfolds(n: int, t: Tree)
    ensures n == 0 ==> Star(n, t) == TRep(t)
    ensures n > 0 ==> Star(n, t) == TSeq(t, AtLeast(n - 1, t))
    ensures n == -1 ==> Star(n, t) == TChoice(t, TTrue)
    ensures n < -1 ==> Star(n, t) == TChoice(TSeq(t, AtMost(-n - 1, t)), TTrue)
  {
  }

  lemma PairChecked(t: Tree, p: Tree)
    requires Fit(t) && Fit(p) && !CheckLoops([], t) && !CheckLoops([], p) && Calls(p) == Calls(t)
    ensures Fit(TSeq(t, p)) && !CheckLoops([], TSeq(t, p)) && Calls(TSeq(t, p)) == Calls(t)
    ensures var q := TChoice(TSeq(t, p), TTrue); Fit(q) && !CheckLoops([], q) && Calls(q) == Calls(t)
    ensures var q := TChoice(t, TTrue); Fit(q) && !CheckLoops([], q) && Calls(q) == Calls(t)
    ensures !CheckAux([], t, PEnullable, DEPTH) ==>
      Fit(TRep(t)) && !CheckLoops([], TRep(t)) && Calls(TRep(t)) == Calls(t)
  {
    hide CheckAux, Accepted;
  }

  // ----- the array of a grammar -----

  /** 'collectrules': where the rules will be, and how many nodes that takes. */
  method CollectRules(patterns: seq<seq<Node>>, ghost rules: seq<Tree>) returns (pos: seq<nat>, total: nat)
    requires rules != [] && Patterns(patterns, rules)
    ensures pos == RulePositions(rules, 1) && total == 2 + SizeRules(rules)
  {
    hide Laid, Size, Patterns, RulePositions, SizeRules;
    pos := [];
    var size: nat, i: nat := 1, 0;
    assert rules[0..] == rules;
    SameNumber(patterns, rules);
    while i < |patterns|
      invariant 0 <= i <= |rules| == |patterns| && pos + RulePositions(rules[i..], size) == RulePositions(rules, 1)
      invariant size + SizeRules(rules[i..]) == 1 + SizeRules(rules)
    {
      PatternIs(patterns, rules, i);
      PositionsStep(rules, i, size);
      pos := pos + [size];
      size := size + 1 + |patterns[i]|;
      i := i + 1;
    }
    NoPositions(rules, size);
    total := size + 1;
  }

  lemma SameNumber(patterns: seq<seq<Node>>, rules: seq<Tree>)
    requires Patterns(patterns, rules)
    ensures |patterns| == |rules|
  {
  }

  lemma PositionsStep(rules: seq<Tree>, i: nat, size: nat)
    requires i < |rules|
    ensures RulePositions(rules[i..], size) == [size] + RulePositions(rules[i + 1..], size + 1 + Size(rules[i]))
    ensures SizeRules(rules[i..]) == 1 + Size(rules[i]) + SizeRules(rules[i + 1..])
  {
    assert rules[i..][0] == rules[i] && rules[i..][1..] == rules[i + 1..];
  }

  lemma NoPositions(rules: seq<Tree>, size: nat)
    ensures RulePositions(rules[|rules|..], size) == [] && SizeRules(rules[|rules|..]) == 0
  {
  }

  /** The arrays hold the trees. */
  ghost predicate Patterns(patterns: seq<seq<Node>>, rules: seq<Tree>) {
    && |patterns| == |rules|
    && forall k :: 0 <= k < |rules| ==> |patterns[k]| == Size(rules[k]) && Laid(patterns[k], 0, rules[k], Pending)
  }

  lemma PatternIs(patterns: seq<seq<Node>>, rules: seq<Tree>, k: nat)
    requires Patterns(patterns, rules) && k < |rules|
    ensures |patterns| == |rules| && |patterns[k]| == Size(rules[k]) && Laid(patterns[k], 0, rules[k], Pending)
  {
  }

  /** One more rule at the end of the list. */
  lemma {:induction false} LaidSnoc(s: seq<Node>, k: nat, rs: seq<Tree>, index: nat, r: Tree)
    requires LaidRules(s, k, rs, index, {}, Pending)
    requires var e := k + SizeRules(rs);
      && Head(s, e, RULE) && s[e].cap == (index + |rs|) % RULENUMBERS && s[e].ps == 1 + Size(r) && s[e].key == 0
      && Laid(s, e + 1, r, Pending)
    ensures LaidRules(s, k, rs + [r], index, {}, Pending) && SizeRules(rs + [r]) == SizeRules(rs) + 1 + Size(r)
    decreases |rs|
  {
    hide Laid, Size;
    if rs == [] {
      assert rs + [r] == [r] && [r][1..] == [];
    } else {
      assert (rs + [r])[0] == rs[0] && (rs + [r])[1..] == rs[1..] + [r];
      LaidSnoc(s, k + 1 + Size(rs[0]), rs[1..], index + 1, r);
    }
  }

  /** 'buildgrammar'. */
  method BuildGrammar(a: array<Node>, patterns: seq<seq<Node>>, ghost rules: seq<Tree>)
    requires Patterns(patterns, rules) && a.Length == 2 + SizeRules(rules) && Head(a[..], 0, GRAMMAR)
    requires a[0].ps == |rules|
    modifies a
    ensures Built(a[..], 0, rules)
  {
    hide Laid, Size, LaidRules, Patterns;
    var nd, i := 1, 0;
    NoRulesLaid(a[..]);
    SameNumber(patterns, rules);
    assert rules[..0] == [];
    while i < |patterns|
      invariant 0 <= i <= |rules| == |patterns| && nd == 1 + SizeRules(rules[..i])
      invariant LaidRules(a[..], 1, rules[..i], 0, {}, Pending) && a[0] == old(a[0])
    {
      PatternIs(patterns, rules, i);
      SizeParts(rules, i);
      ghost var before := a[..];
      a[nd] := N(RULE, i % RULENUMBERS, 0, |patterns[i]| + 1);
      CopyTree(a, nd + 1, patterns[i], rules[i]);
      assert Agree(before, 1, a[..], 1, SizeRules(rules[..i]));
      LaidRulesMove(before, 1, a[..], 1, rules[..i], 0, {}, Pending);
      LaidSnoc(a[..], 1, rules[..i], 0, rules[i]);
      assert rules[..i] + [rules[i]] == rules[..i + 1];
      nd := nd + a[nd].ps;
      i := i + 1;
    }
    assert rules[..i] == rules;
    ghost var before := a[..];
    var cap: nat, key: nat, ps: int := *, *, *;
    a[nd] := N(TRUE, cap, key, ps);
    LaidRulesMove(before, 1, a[..], 1, rules, 0, {}, Pending);
  }

  lemma NoRulesLaid(s: seq<Node>)
    ensures LaidRules(s, 1, [], 0, {}, Pending) && SizeRules([]) == 0
  {
  }

  lemma {:induction false} SizeParts(rules: seq<Tree>, i: nat)
    requires i < |rules|
    ensures SizeRules(rules[..i]) + 1 + Size(rules[i]) <= SizeRules(rules)
    decreases i
  {
    hide Size;
    if i > 0 {
      assert rules[..i][0] == rules[0] && rules[..i][1..] == rules[1..][..i - 1];
      SizeParts(rules[1..], i - 1);
    }
  }

  /** 'newgrammar' up to the checks: the array holds the right-associative grammar, with names for exactly the rules
      in use; it fails exactly if a call has no rule or there are too many rules. */
  method NewGrammar(patterns: seq<seq<Node>>, ghost rules: seq<Tree>) returns (ok: bool, a: array<Node>)
    requires rules != [] && Patterns(patterns, rules)
    ensures ok <==> |rules| <= MAXRULES && forall c :: c in AllCalls(rules) ==> c < |rules|
    ensures ok ==> fresh(a) && a.Length == Size(TGrammar(rules)) && Laid(a[..], 0, TGrammar(RightAll(rules)), Pending)
  {
    hide Laid, RightAll, LaidRules, RulePositions, AllCalls;
    var pos, total := CollectRules(patterns, rules);
    var cap: nat, key: nat := *, *;
    a := new Node[total](_ => N(TRUE, 0, 0, 0));
    if |patterns| > MAXRULES { return false, a; }
    a[0] := N(GRAMMAR, cap, key, |patterns|);
    BuildGrammar(a, patterns, rules);
    TableSize(rules, pos);
    ok := FixGrammar(a, 0, pos, rules);
  }

  lemma TableSize(rules: seq<Tree>, pos: seq<nat>)
    requires pos == RulePositions(rules, 1)
    ensures InTable(AllCalls(rules), pos) <==> forall c :: c in AllCalls(rules) ==> c < |rules|
  {
  }
}
