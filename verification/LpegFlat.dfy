/** Trees as lptree.c stores them: arrays of nodes, the first child next to its parent, the second 'ps' nodes away. */
module FlatTree {
  import opened Common
  import opened PegTree
  import opened Peg
  import opened Analysis
  import opened GrammarCheck

  datatype Tag =
    | CHAR | SET | ANY | TRUE | FALSE | REP | SEQ | CHOICE | NOT | AND
    | CALL | OPENCALL | RULE | GRAMMAR | BEHIND | CAPTURE

  /** A node, or eight bytes of a character-set buffer: the members it stands for. */
  datatype Node = N(tag: Tag, cap: nat, key: nat, ps: int) | Raw(part: Charset)

  /** Slots taken by a character-set buffer. */
  const BUFFER: nat := 4

  function Part(cs: Charset, q: nat): Charset {
    set c | c in cs && c / 64 == q
  }

  /** 'numsiblings'. */
  function Siblings(tag: Tag): nat {
    match tag
    case REP => 1 case NOT => 1 case AND => 1 case BEHIND => 1 case CAPTURE => 1 case GRAMMAR => 1
    case SEQ => 2 case CHOICE => 2 case RULE => 2
    case _ => 0
  }

  function Size(t: Tree): (n: nat)
    ensures n > 0
    decreases t, 0
  {
    match t
    case TSet(_) => 1 + BUFFER
    case TRep(p) => 1 + Size(p)
    case TNot(p) => 1 + Size(p)
    case TAnd(p) => 1 + Size(p)
    case TBehind(_, p) => 1 + Size(p)
    case TCapture(_, _, p) => 1 + Size(p)
    case TSeq(p1, p2) => 1 + Size(p1) + Size(p2)
    case TChoice(p1, p2) => 1 + Size(p1) + Size(p2)
    case TGrammar(rules) => 2 + SizeRules(rules)
    case _ => 1
  }

  function SizeRules(rs: seq<Tree>): nat
    decreases rs, 1
  {
    if rs == [] then 0 else 1 + Size(rs[0]) + SizeRules(rs[1..])
  }

  /** The position table: where each rule of the list is, if the first one is at 'from'. */
  function RulePositions(rs: seq<Tree>, from: nat): (pos: seq<nat>)
    ensures |pos| == |rs|
    ensures forall k :: 0 <= k < |pos| ==> from <= pos[k] < from + SizeRules(rs)
    ensures forall k, m :: 0 <= k < m < |pos| ==> pos[k] < pos[m]
    decreases rs
  {
    if rs == [] then [] else [from] + RulePositions(rs[1..], from + 1 + Size(rs[0]))
  }

  function AllCalls(rs: seq<Tree>): set<nat> {
    if rs == [] then {} else Calls(rs[0]) + AllCalls(rs[1..])
  }

  /** How calls are stored: not yet resolved, or relative to a grammar 'off' nodes back whose rules are at 'pos'. */
  datatype Stage = Pending | Fixed(off: int, pos: seq<nat>)

  function Shift(m: Stage, d: nat): Stage {
    if m.Pending? then m else m.(off := m.off + d)
  }

  predicate Head(s: seq<Node>, k: nat, tag: Tag) {
    k < |s| && s[k].N? && s[k].tag == tag
  }

  predicate One(t: Tree) {
    t.TRep? || t.TNot? || t.TAnd? || t.TBehind? || t.TCapture?
  }

  predicate Two(t: Tree) {
    t.TSeq? || t.TChoice?
  }

  function TagOf(t: Tree, m: Stage): Tag {
    match t
    case TChar(_) => CHAR
    case TSet(_) => SET
    case TAny => ANY
    case TTrue => TRUE
    case TFalse => FALSE
    case TRep(_) => REP
    case TNot(_) => NOT
    case TAnd(_) => AND
    case TBehind(_, _) => BEHIND
    case TCapture(_, _, _) => CAPTURE
    case TSeq(_, _) => SEQ
    case TChoice(_, _) => CHOICE
    case TCall(_) => if m.Pending? then OPENCALL else CALL
    case TGrammar(_) => GRAMMAR
  }

  /** The root node of t. Fields that a tag does not use may hold anything; rule r has key r + 1. */
  predicate NodeFor(x: Node, t: Tree, m: Stage) {
    && x.N? && x.tag == TagOf(t, m)
    && match t
       case TChar(c) => x.ps == c
       case TBehind(n, _) => x.ps == n
       case TCapture(kind, key, _) => x.cap == kind && x.key == key
       case TSeq(p1, _) => x.ps == 1 + Size(p1)
       case TChoice(p1, _) => x.ps == 1 + Size(p1)
       case TCall(r) => x.key == r + 1 && (m.Fixed? ==> r < |m.pos| && x.ps == m.pos[r] - m.off)
       case TGrammar(rules) => x.ps == |rules|
       case _ => true
  }

  /** The nodes from k on hold tree t. */
  predicate Laid(s: seq<Node>, k: nat, t: Tree, m: Stage)
    decreases t, 0
  {
    && k < |s| && NodeFor(s[k], t, m)
    && if One(t) then Laid(s, k + 1, t.p, Shift(m, 1))
       else if Two(t) then
         Laid(s, k + 1, t.p1, Shift(m, 1)) && Laid(s, k + 1 + Size(t.p1), t.p2, Shift(m, 1 + Size(t.p1)))
       else if t.TSet? then LaidBuffer(s, k + 1, t.cs)
       else if t.TGrammar? then
         && LaidRules(s, k + 1, t.rules, 0, AllCalls(t.rules) + {0}, Fixed(1, RulePositions(t.rules, 1)))
         && Head(s, k + 1 + SizeRules(t.rules), TRUE)
       else true
  }

  predicate LaidBuffer(s: seq<Node>, k: nat, cs: Charset) {
    && k + BUFFER <= |s|
    && s[k] == Raw(Part(cs, 0)) && s[k + 1] == Raw(Part(cs, 1))
    && s[k + 2] == Raw(Part(cs, 2)) && s[k + 3] == Raw(Part(cs, 3))
  }

  /** A list of rules, the first with number 'index'; only the rules in 'used' have a key. */
  predicate LaidRules(s: seq<Node>, k: nat, rs: seq<Tree>, index: nat, used: set<nat>, m: Stage)
    decreases rs, 1
  {
    rs != [] ==>
      && Head(s, k, RULE) && s[k].cap == index % RULENUMBERS && s[k].ps == 1 + Size(rs[0])
      && s[k].key == (if index in used then index + 1 else 0)
      && Laid(s, k + 1, rs[0], Shift(m, 1))
      && LaidRules(s, k + 1 + Size(rs[0]), rs[1..], index + 1, used, Shift(m, 1 + Size(rs[0])))
  }

  // ----- the definition of Laid, case by case -----

  lemma OneLaid(s: seq<Node>, k: nat, t: Tree, m: Stage)
    requires One(t)
    ensures Laid(s, k, t, m) <==> k < |s| && NodeFor(s[k], t, m) && Laid(s, k + 1, t.p, Shift(m, 1))
  {
    hide NodeFor;
  }

  lemma TwoLaid(s: seq<Node>, k: nat, t: Tree, m: Stage)
    requires Two(t)
    ensures Laid(s, k, t, m) <==>
      && k < |s| && NodeFor(s[k], t, m)
      && Laid(s, k + 1, t.p1, Shift(m, 1)) && Laid(s, k + 1 + Size(t.p1), t.p2, Shift(m, 1 + Size(t.p1)))
  {
    hide NodeFor;
  }

  lemma GrammarLaid(s: seq<Node>, k: nat, t: Tree, m: Stage)
    requires t.TGrammar?
    ensures Laid(s, k, t, m) <==>
      && k < |s| && NodeFor(s[k], t, m)
      && LaidRules(s, k + 1, t.rules, 0, AllCalls(t.rules) + {0}, Fixed(1, RulePositions(t.rules, 1)))
      && Head(s, k + 1 + SizeRules(t.rules), TRUE)
  {
    hide NodeFor, LaidRules, RulePositions;
  }

  lemma LeafLaid(s: seq<Node>, k: nat, t: Tree, m: Stage)
    requires !One(t) && !Two(t) && !t.TGrammar?
    ensures Laid(s, k, t, m) <==> k < |s| && NodeFor(s[k], t, m) && (t.TSet? ==> LaidBuffer(s, k + 1, t.cs))
  {
    hide NodeFor;
  }

  // ----- what a layout depends on -----

  /** s' has, from k' on, the n slots that s has from k on (as far as s goes). */
  ghost predicate Agree(s: seq<Node>, k: nat, s': seq<Node>, k': nat, n: nat) {
    k' + n <= |s'| && forall x :: k <= x < k + n && x < |s| ==> s'[x - k + k'] == s[x]
  }

  lemma AgreePart(s: seq<Node>, k: nat, s': seq<Node>, k': nat, n: nat, d: nat, n': nat)
    requires Agree(s, k, s', k', n) && d + n' <= n
    ensures Agree(s, k + d, s', k' + d, n')
    ensures k' + d + n' <= |s'| && (n' > 0 && k + d < |s| ==> s'[k' + d] == s[k + d])
  {
  }

  lemma SizeOf(t: Tree)
    ensures One(t) ==> Size(t) == 1 + Size(t.p)
    ensures Two(t) ==> Size(t) == 1 + Size(t.p1) + Size(t.p2)
    ensures t.TSet? ==> Size(t) == 1 + BUFFER
    ensures t.TGrammar? ==> Size(t) == 2 + SizeRules(t.rules)
    ensures !One(t) && !Two(t) && !t.TSet? && !t.TGrammar? ==> Size(t) == 1
  {
  }

  lemma BufferMove(s: seq<Node>, k: nat, s': seq<Node>, k': nat, cs: Charset)
    requires LaidBuffer(s, k, cs) && Agree(s, k, s', k', BUFFER)
    ensures LaidBuffer(s', k', cs) && k + BUFFER <= |s|
  {
  }

  /** A layout stays inside its slots, and moves with them. */
  lemma {:induction false} LaidMove(s: seq<Node>, k: nat, s': seq<Node>, k': nat, t: Tree, m: Stage)
    requires Laid(s, k, t, m) && Agree(s, k, s', k', Size(t))
    ensures k + Size(t) <= |s| && Laid(s', k', t, m)
    decreases t, 0
  {
    hide Laid, RulePositions, AllCalls, LaidRules, SizeRules, LaidBuffer, NodeFor, Agree, Size;
    SizeOf(t);
    AgreePart(s, k, s', k', Size(t), 0, 1);
    if One(t) {
      OneLaid(s, k, t, m);
      OneLaid(s', k', t, m);
      AgreePart(s, k, s', k', Size(t), 1, Size(t.p));
      LaidMove(s, k + 1, s', k' + 1, t.p, Shift(m, 1));
    } else if Two(t) {
      var d := 1 + Size(t.p1);
      TwoLaid(s, k, t, m);
      TwoLaid(s', k', t, m);
      AgreePart(s, k, s', k', Size(t), 1, Size(t.p1));
      LaidMove(s, k + 1, s', k' + 1, t.p1, Shift(m, 1));
      AgreePart(s, k, s', k', Size(t), d, Size(t.p2));
      LaidMove(s, k + d, s', k' + d, t.p2, Shift(m, d));
    } else if t.TGrammar? {
      GrammarLaid(s, k, t, m);
      GrammarLaid(s', k', t, m);
      AgreePart(s, k, s', k', Size(t), 1, SizeRules(t.rules));
      AgreePart(s, k, s', k', Size(t), 1 + SizeRules(t.rules), 1);
      LaidRulesMove(s, k + 1, s', k' + 1, t.rules, 0, AllCalls(t.rules) + {0}, Fixed(1, RulePositions(t.rules, 1)));
    } else {
      LeafLaid(s, k, t, m);
      LeafLaid(s', k', t, m);
      if t.TSet? {
        AgreePart(s, k, s', k', Size(t), 1, BUFFER);
        BufferMove(s, k + 1, s', k' + 1, t.cs);
      }
    }
  }

  lemma {:induction false} LaidRulesMove(s: seq<Node>, k: nat, s': seq<Node>, k': nat, rs: seq<Tree>, index: nat,
                                         used: set<nat>, m: Stage)
    requires LaidRules(s, k, rs, index, used, m) && Agree(s, k, s', k', SizeRules(rs))
    ensures rs != [] ==> k + SizeRules(rs) <= |s|
    ensures LaidRules(s', k', rs, index, used, m)
    decreases rs, 2
  {
    hide Laid, Agree, Size;
    if rs != [] {
      var d := 1 + Size(rs[0]);
      AgreePart(s, k, s', k', SizeRules(rs), 0, 1);
      AgreePart(s, k, s', k', SizeRules(rs), 1, Size(rs[0]));
      LaidMove(s, k + 1, s', k' + 1, rs[0], Shift(m, 1));
      AgreePart(s, k, s', k', SizeRules(rs), d, SizeRules(rs[1..]));
      LaidRulesMove(s, k + d, s', k' + d, rs[1..], index + 1, used, Shift(m, d));
    }
  }

  // ----- 'correctassociativity' -----

  /** t is a pair whose first child is a pair of the same kind. */
  predicate LeftNested(t: Tree) {
    (t.TSeq? && t.p1.TSeq?) || (t.TChoice? && t.p1.TChoice?)
  }

  /** One rotation: a (b c) from (a b) c. */
  function Rotated(t: Tree): (r: Tree)
    requires LeftNested(t)
    ensures Size(r) == Size(t) && r.TSeq? == t.TSeq? && r.TChoice? == t.TChoice?
  {
    if t.TSeq? then TSeq(t.p1.p1, TSeq(t.p1.p2, t.p2)) else TChoice(t.p1.p1, TChoice(t.p1.p2, t.p2))
  }

  /** Right-associative form of the topmost run of sequences (or of choices). */
  function Rotate(t: Tree): (r: Tree)
    requires Two(t)
    ensures Size(r) == Size(t) && r.TSeq? == t.TSeq? && r.TChoice? == t.TChoice? && !LeftNested(r)
    decreases t.p1
  {
    if LeftNested(t) then Rotate(Rotated(t)) else t
  }

  /** Rotating keeps the result of every match, captures included. */
  lemma {:induction false} RotateEval(g: seq<Tree>, t: Tree, s: seq<Byte>, i: nat, n: nat)
    requires Two(t) && i <= |s|
    ensures Eval(g, Rotate(t), s, i, n) == Eval(g, t, s, i, n)
    decreases t.p1
  {
    if LeftNested(t) {
      RotateEval(g, Rotated(t), s, i, n);
      if t.TSeq? { SeqAssociative(g, t.p1.p1, t.p1.p2, t.p2, s, i, n); }
    }
  }

  lemma SeqAssociative(g: seq<Tree>, a: Tree, b: Tree, c: Tree, s: seq<Byte>, i: nat, n: nat)
    requires i <= |s|
    ensures Eval(g, TSeq(TSeq(a, b), c), s, i, n) == Eval(g, TSeq(a, TSeq(b, c)), s, i, n)
  {
    hide Eval;
    SeqEval(g, a, b, s, i, n);
    SeqEval(g, a, TSeq(b, c), s, i, n);
    SeqEval(g, TSeq(a, b), c, s, i, n);
    var ra := Eval(g, a, s, i, n);
    if ra.Yes? {
      SeqEval(g, b, c, s, ra.j, n);
      var rb := Eval(g, b, s, ra.j, n);
      if rb.Yes? {
        var rc := Eval(g, c, s, rb.j, n);
        if rc.Yes? { assert ra.caps + rb.caps + rc.caps == ra.caps + (rb.caps + rc.caps); }
      }
    }
  }

  /** 'memmove' inside an array. */
  method MoveNodes(a: array<Node>, dst: nat, src: nat, n: nat)
    requires dst <= src && src + n <= a.Length
    modifies a
    ensures forall x :: dst <= x < dst + n ==> a[x] == old(a[..])[x - dst + src]
    ensures forall x :: 0 <= x < a.Length && !(dst <= x < dst + n) ==> a[x] == old(a[x])
  {
    ghost var s := a[..];
    var i := 0;
    while i < n
      invariant i <= n
      invariant forall x :: dst <= x < dst + i ==> a[x] == s[x - dst + src]
      invariant forall x :: 0 <= x < a.Length && !(dst <= x < dst + i) ==> a[x] == s[x]
    {
      a[dst + i] := a[src + i];
      i := i + 1;
    }
  }

  lemma RootLaid(s: seq<Node>, k: nat, t: Tree, m: Stage)
    requires Laid(s, k, t, m)
    ensures Head(s, k, TagOf(t, m))
  {
  }

  /** A pair that is not resolved yet. */
  lemma PairLaid(s: seq<Node>, k: nat, t: Tree)
    requires Two(t)
    ensures Laid(s, k, t, Pending) <==>
      && Head(s, k, TagOf(t, Pending)) && s[k].ps == 1 + Size(t.p1) && Laid(s, k + 1, t.p1, Pending)
      && Laid(s, k + 1 + Size(t.p1), t.p2, Pending)
  {
    hide Laid;
    TwoLaid(s, k, t, Pending);
  }

  /** The shape of a rotated pair. */
  lemma RotatedShape(t: Tree)
    requires LeftNested(t)
    ensures Two(t) && Two(t.p1) && TagOf(t.p1, Pending) == TagOf(t, Pending)
    ensures var r := Rotated(t);
      && Two(r) && Two(r.p2) && r.p1 == t.p1.p1 && r.p2.p1 == t.p1.p2 && r.p2.p2 == t.p2
      && TagOf(r, Pending) == TagOf(r.p2, Pending) == TagOf(t, Pending)
    ensures Size(t) == 2 + Size(t.p1.p1) + Size(t.p1.p2) + Size(t.p2) && Size(t.p1) == 1 + Size(t.p1.p1) + Size(t.p1.p2)
  {
  }

  /** The two roots of a left-nested pair. */
  lemma NestedRoots(s: seq<Node>, k: nat, t: Tree)
    requires LeftNested(t) && Laid(s, k, t, Pending)
    ensures Head(s, k, TagOf(t, Pending)) && s[k].ps == 1 + Size(t.p1)
    ensures Head(s, k + 1, TagOf(t, Pending)) && s[k + 1].ps == 1 + Size(t.p1.p1)
    ensures Size(t) == 2 + Size(t.p1.p1) + Size(t.p1.p2) + Size(t.p2) && Size(t.p1) == 1 + Size(t.p1.p1) + Size(t.p1.p2)
  {
    hide Laid, TagOf, Size, Rotated;
    RotatedShape(t);
    PairLaid(s, k, t);
    PairLaid(s, k + 1, t.p1);
  }

  /** The node moves of one rotation turn the layout of t into that of its rotation. */
  lemma RotatedLaid(s: seq<Node>, s': seq<Node>, k: nat, t: Tree)
    requires LeftNested(t) && Laid(s, k, t, Pending)
    requires Agree(s, k + 2, s', k + 1, Size(t.p1.p1))
    requires Agree(s, k + 2 + Size(t.p1.p1), s', k + 2 + Size(t.p1.p1), Size(t.p1.p2) + Size(t.p2))
    requires Head(s', k, TagOf(t, Pending)) && s'[k].ps == 1 + Size(t.p1.p1)
    requires Head(s', k + 1 + Size(t.p1.p1), TagOf(t, Pending)) && s'[k + 1 + Size(t.p1.p1)].ps == 1 + Size(t.p1.p2)
    ensures Laid(s', k, Rotated(t), Pending)
  {
    hide Laid, Agree, TagOf, Size, Rotated, LeftNested, Two;
    RotatedShape(t);
    var t11, t12, t2, r := t.p1.p1, t.p1.p2, t.p2, Rotated(t);
    var k1 := k + 2 + Size(t11);
    PairLaid(s, k, t);
    PairLaid(s, k + 1, t.p1);
    LaidMove(s, k + 2, s', k + 1, t11, Pending);
    AgreePart(s, k1, s', k1, Size(t12) + Size(t2), 0, Size(t12));
    LaidMove(s, k1, s', k1, t12, Pending);
    AgreePart(s, k1, s', k1, Size(t12) + Size(t2), Size(t12), Size(t2));
    LaidMove(s, k1 + Size(t12), s', k1 + Size(t12), t2, Pending);
    PairLaid(s', k + 1 + Size(t11), r.p2);
    PairLaid(s', k, r);
  }

  /** One turn of the loop of 'correctassociativity', on the nodes alone. */
  method SwapRoots(a: array<Node>, k: nat)
    requires k + 1 < a.Length && a[k].N? && a[k + 1].N? && 0 < a[k + 1].ps < a[k].ps && k + a[k].ps <= a.Length
    modifies a
    ensures var n11 := old(a[k + 1].ps) - 1;
      && (forall x :: k < x <= k + n11 ==> a[x] == old(a[x + 1]))
      && (forall x :: 0 <= x < a.Length && !(k <= x <= k + 1 + n11) ==> a[x] == old(a[x]))
      && a[k] == old(a[k]).(ps := n11 + 1)
      && a[k + 1 + n11].N? && a[k + 1 + n11].tag == old(a[k].tag) && a[k + 1 + n11].ps == old(a[k].ps) - 1 - n11
  {
    var n1size := a[k].ps - 1;
    var n11size := a[k + 1].ps - 1;
    var n12size := n1size - n11size - 1;
    MoveNodes(a, k + 1, k + 2, n11size);
    a[k] := a[k].(ps := n11size + 1);
    var cap: nat, key: nat := *, *;  // whatever the slot held
    a[k + 1 + n11size] := N(a[k].tag, cap, key, n12size + 1);
  }

  lemma SwapAgrees(s: seq<Node>, s': seq<Node>, k: nat, n11: nat, rest: nat)
    requires |s| == |s'| && k + 2 + n11 + rest <= |s|
    requires forall x :: k < x <= k + n11 ==> s'[x] == s[x + 1]
    requires forall x :: 0 <= x < |s| && !(k <= x <= k + 1 + n11) ==> s'[x] == s[x]
    ensures Agree(s, k + 2, s', k + 1, n11) && Agree(s, k + 2 + n11, s', k + 2 + n11, rest)
  {
  }

  /** The two operators swap their roles. */
  method RotateStep(a: array<Node>, k: nat, ghost t: Tree)
    requires LeftNested(t) && k + Size(t) <= a.Length && Laid(a[..], k, t, Pending)
    modifies a
    ensures Laid(a[..], k, Rotated(t), Pending)
    ensures forall x :: 0 <= x < a.Length && !(k <= x < k + Size(t)) ==> a[x] == old(a[x])
  {
    hide Laid, Size, Rotated, TagOf, Agree;
    ghost var before := a[..];
    NestedRoots(before, k, t);
    SwapRoots(a, k);
    SwapAgrees(before, a[..], k, Size(t.p1.p1), Size(t.p1.p2) + Size(t.p2));
    RotatedLaid(before, a[..], k, t);
  }

  method CorrectAssociativity(a: array<Node>, k: nat, ghost t: Tree)
    requires Two(t) && k + Size(t) <= a.Length && Laid(a[..], k, t, Pending)
    modifies a
    ensures Laid(a[..], k, Rotate(t), Pending)
    ensures forall x :: 0 <= x < a.Length && !(k <= x < k + Size(t)) ==> a[x] == old(a[x])
  {
    hide Laid, Size, Rotated, NodeFor;
    ghost var c := t;
    PairLaid(a[..], k, c);
    RootLaid(a[..], k + 1, c.p1, Pending);
    while a[k + 1].tag == a[k].tag
      invariant Two(c) && Size(c) == Size(t) && Rotate(c) == Rotate(t)
      invariant Laid(a[..], k, c, Pending) && Laid(a[..], k + 1, c.p1, Pending)
      invariant Head(a[..], k, TagOf(c, Pending)) && Head(a[..], k + 1, TagOf(c.p1, Pending))
      invariant forall x :: 0 <= x < a.Length && !(k <= x < k + Size(t)) ==> a[x] == old(a[x])
      decreases c.p1
    {
      RotateStep(a, k, c);
      RotatedShape(c);
      c := Rotated(c);
      PairLaid(a[..], k, c);
      RootLaid(a[..], k + 1, c.p1, Pending);
    }
  }

  // ----- 'finalfix' -----

  /** All sequences and choices made right associative, top down; nested grammars were fixed when they were built. */
  function Right(t: Tree): (r: Tree)
    ensures Size(r) == Size(t) && (r.TSeq? <==> t.TSeq?) && (r.TChoice? <==> t.TChoice?)
    decreases Size(t)
  {
    if One(t) then t.(p := Right(t.p))
    else if Two(t) then
      var r := Rotate(t);
      r.(p1 := Right(r.p1), p2 := Right(r.p2))
    else t
  }

  predicate RightAssociative(t: Tree) {
    if One(t) then RightAssociative(t.p)
    else if Two(t) then !LeftNested(t) && RightAssociative(t.p1) && RightAssociative(t.p2)
    else true
  }

  lemma {:induction false} RightIsRight(t: Tree)
    ensures RightAssociative(Right(t))
    decreases Size(t)
  {
    if One(t) {
      RightIsRight(t.p);
    } else if Two(t) {
      RightIsRight(Rotate(t).p1);
      RightIsRight(Rotate(t).p2);
    }
  }

  function RightAll(g: seq<Tree>): seq<Tree> {
    seq(|g|, k requires 0 <= k < |g| => Right(g[k]))
  }

  /** Fixing all rules keeps the result of every match. */
  lemma {:induction false} RightEval(g: seq<Tree>, t: Tree, s: seq<Byte>, i: nat, n: nat)
    requires i <= |s|
    ensures Eval(RightAll(g), Right(t), s, i, n) == Eval(g, t, s, i, n)
    decreases n, Size(t), |s| - i
  {
    hide Rotate, RightAll;
    if Two(t) {
      RightPairEval(g, t, s, i, n);
    } else if t.TBehind? {
      if i >= t.n { RightEval(g, t.p, s, i - t.n, n); }
    } else if One(t) {
      RightOneEval(g, t, s, i, n);
    } else if t.TCall? {
      RightRules(g, t.rule);
      if n > 0 && t.rule < |g| { RightEval(g, g[t.rule], s, i, n - 1); }
    } else if t.TGrammar? {
      if t.rules != [] { EvalClosed(RightAll(g), g, t, s, i, n); }
    }
  }

  lemma RightRules(g: seq<Tree>, k: nat)
    ensures |RightAll(g)| == |g| && (k < |g| ==> RightAll(g)[k] == Right(g[k]))
  {
  }

  lemma {:induction false} RightOneEval(g: seq<Tree>, t: Tree, s: seq<Byte>, i: nat, n: nat)
    requires i <= |s| && One(t) && !t.TBehind?
    ensures Eval(RightAll(g), Right(t), s, i, n) == Eval(g, t, s, i, n)
    decreases n, Size(t), |s| - i, 0
  {
    hide RightAll, Rotate;
    RightEval(g, t.p, s, i, n);
    var r1 := Eval(g, t.p, s, i, n);
    if t.TRep? && r1.Yes? && r1.j > i { RightEval(g, t, s, r1.j, n); }
  }

  lemma {:induction false} RightPairEval(g: seq<Tree>, t: Tree, s: seq<Byte>, i: nat, n: nat)
    requires i <= |s| && Two(t)
    ensures Eval(RightAll(g), Right(t), s, i, n) == Eval(g, t, s, i, n)
    decreases n, Size(t), |s| - i, 0
  {
    hide Eval, RightAll;
    var r := Rotate(t);
    var g' := RightAll(g);
    RotateEval(g, t, s, i, n);
    RightEval(g, r.p1, s, i, n);
    var r1 := Eval(g, r.p1, s, i, n);
    if t.TSeq? {
      SeqEval(g, r.p1, r.p2, s, i, n);
      SeqEval(g', Right(r.p1), Right(r.p2), s, i, n);
      if r1.Yes? { RightEval(g, r.p2, s, r1.j, n); }
    } else {
      OrEval(g, r.p1, r.p2, s, i, n);
      OrEval(g', Right(r.p1), Right(r.p2), s, i, n);
      RightEval(g, r.p2, s, i, n);
    }
  }

  /** A grammar brings its own rules. */
  lemma EvalClosed(g: seq<Tree>, g': seq<Tree>, t: Tree, s: seq<Byte>, i: nat, n: nat)
    requires t.TGrammar? && i <= |s|
    ensures Eval(g, t, s, i, n) == Eval(g', t, s, i, n)
  {
  }

  /** The node x, 'off' nodes after its grammar, once the calls in 'calls' have named the rules they refer to. */
  ghost function Named(x: Node, off: int, pos: seq<nat>, calls: set<nat>): Node {
    if x.N? && exists r :: r in calls && r < |pos| && pos[r] == off then
      var r :| r in calls && r < |pos| && pos[r] == off;
      x.(key := r + 1)
    else x
  }

  /** All nodes but the n from k on are as in s, with the rules in 'calls' named. */
  ghost predicate Renamed(s: seq<Node>, s': seq<Node>, g: nat, pos: seq<nat>, calls: set<nat>, k: nat, n: nat) {
    |s'| == |s| && forall x :: 0 <= x < |s| && !(k <= x < k + n) ==> s'[x] == Named(s[x], x - g, pos, calls)
  }

  /** Position table 'pos' of the grammar at g: its rules are outside the n nodes from k on. */
  ghost predicate RuleTable(s: seq<Node>, g: nat, pos: seq<nat>, k: nat, n: nat) {
    && (forall r :: 0 <= r < |pos| ==> g + pos[r] < |s| && Head(s, g + pos[r], RULE) && !(k <= g + pos[r] < k + n))
    && (forall q, r :: 0 <= q < r < |pos| ==> pos[q] < pos[r])
  }

  lemma NamedTwice(x: Node, off: int, pos: seq<nat>, c1: set<nat>, c2: set<nat>)
    requires forall q, r :: 0 <= q < r < |pos| ==> pos[q] < pos[r]
    ensures Named(Named(x, off, pos, c1), off, pos, c2) == Named(x, off, pos, c1 + c2)
  {
    if x.N? && exists r :: r in c1 + c2 && r < |pos| && pos[r] == off {
      var r :| r in c1 + c2 && r < |pos| && pos[r] == off;
      assert forall q :: q < |pos| && q in c1 + c2 && pos[q] == off ==> q == r;
    }
  }

  /** Fixing two disjoint parts of a zone one after the other. */
  lemma RenamedTwice(s: seq<Node>, s1: seq<Node>, s2: seq<Node>, g: nat, pos: seq<nat>, c1: set<nat>, c2: set<nat>,
                     k: nat, n: nat, k1: nat, n1: nat, k2: nat, n2: nat)
    requires forall q, r :: 0 <= q < r < |pos| ==> pos[q] < pos[r]
    requires k <= k1 && k1 + n1 <= k + n && k <= k2 && k2 + n2 <= k + n
    requires Renamed(s, s1, g, pos, c1, k1, n1) && Renamed(s1, s2, g, pos, c2, k2, n2)
    ensures Renamed(s, s2, g, pos, c1 + c2, k, n)
  {
    hide Named;
    forall x | 0 <= x < |s| && !(k <= x < k + n) ensures s2[x] == Named(s[x], x - g, pos, c1 + c2) {
      NamedTwice(s[x], x - g, pos, c1, c2);
    }
  }

  /** Renaming leaves the nodes of a zone without rules alone. */
  lemma RenamedAgree(s: seq<Node>, s': seq<Node>, g: nat, pos: seq<nat>, calls: set<nat>, k: nat, n: nat, k1: nat,
                     n1: nat)
    requires Renamed(s, s', g, pos, calls, k, n) && (k1 + n1 <= k || k + n <= k1) && k1 + n1 <= |s|
    requires RuleTable(s, g, pos, k1, n1)
    ensures Agree(s, k1, s', k1, n1)
  {
    forall x | k1 <= x < k1 + n1 ensures s'[x] == s[x] {
      assert forall r :: 0 <= r < |pos| ==> pos[r] != x - g;
    }
  }

  /** Renaming keeps the table of rules. */
  lemma RenamedTable(s: seq<Node>, s': seq<Node>, g: nat, pos: seq<nat>, calls: set<nat>, k: nat, n: nat, k1: nat,
                     n1: nat)
    requires Renamed(s, s', g, pos, calls, k, n) && RuleTable(s, g, pos, k, n) && RuleTable(s, g, pos, k1, n1)
    ensures RuleTable(s', g, pos, k1, n1)
  {
  }

  /** 'fixonecall': an open call becomes a call, and the rule it refers to gets its name; fails if there is no such
      rule. */
  method FixOneCall(a: array<Node>, g: nat, pos: seq<nat>, k: nat, ghost r: nat) returns (ok: bool)
    requires g <= k < a.Length && Laid(a[..], k, TCall(r), Pending) && RuleTable(a[..], g, pos, k, 1)
    modifies a
    ensures ok <==> r < |pos|
    ensures ok ==> Laid(a[..], k, TCall(r), Fixed(k - g, pos)) && Renamed(old(a[..]), a[..], g, pos, {r}, k, 1)
  {
    var rule := a[k].key - 1;
    if rule >= |pos| { return false; }
    var n := pos[rule];
    a[k] := a[k].(tag := CALL, ps := n - (k - g));
    var sib2 := k + a[k].ps;
    assert Head(old(a[..]), g + pos[rule], RULE);
    a[sib2] := a[sib2].(key := a[k].key);
    return true;
  }

  lemma {:induction false} RotateCalls(t: Tree)
    requires Two(t)
    ensures Calls(Rotate(t)) == Calls(t)
    decreases t.p1
  {
    if LeftNested(t) { RotateCalls(Rotated(t)); }
  }

  ghost predicate InTable(calls: set<nat>, pos: seq<nat>) {
    forall c :: c in calls ==> c < |pos|
  }

  /** Nothing to fix below this node. */
  lemma LeafFixed(s: seq<Node>, g: nat, pos: seq<nat>, k: nat, t: Tree)
    requires Laid(s, k, t, Pending) && g <= k && !One(t) && !Two(t) && !t.TCall?
    ensures Calls(t) == {} && Right(t) == t && Laid(s, k, t, Fixed(k - g, pos))
    ensures Renamed(s, s, g, pos, {}, k, Size(t))
  {
    hide RulePositions, LaidRules, LaidBuffer, SizeRules;
  }

  /** The child of a node is fixed. */
  lemma OneFixed(s: seq<Node>, s': seq<Node>, g: nat, pos: seq<nat>, k: nat, t: Tree)
    requires One(t) && g <= k && k + Size(t) <= |s| && Laid(s, k, t, Pending) && RuleTable(s, g, pos, k, Size(t))
    requires Laid(s', k + 1, Right(t.p), Fixed(k + 1 - g, pos)) && Renamed(s, s', g, pos, Calls(t.p), k + 1, Size(t.p))
    ensures Laid(s', k, Right(t), Fixed(k - g, pos)) && Renamed(s, s', g, pos, Calls(t), k, Size(t))
  {
    hide Laid, Named;
    OneLaid(s, k, t, Pending);
    OneLaid(s', k, Right(t), Fixed(k - g, pos));
    RenamedAgree(s, s', g, pos, Calls(t.p), k + 1, Size(t.p), k, 1);
    assert s'[k] == s[k];
  }

  /** Both children of a pair are fixed, one after the other. */
  lemma TwoFixed(s: seq<Node>, s1: seq<Node>, s2: seq<Node>, g: nat, pos: seq<nat>, k: nat, t: Tree)
    requires Two(t) && !LeftNested(t) && g <= k && k + Size(t) <= |s| && Laid(s, k, t, Pending)
    requires RuleTable(s, g, pos, k, Size(t))
    requires Laid(s1, k + 1, Right(t.p1), Fixed(k + 1 - g, pos))
    requires Renamed(s, s1, g, pos, Calls(t.p1), k + 1, Size(t.p1))
    requires Laid(s2, k + 1 + Size(t.p1), Right(t.p2), Fixed(k + 1 + Size(t.p1) - g, pos))
    requires Renamed(s1, s2, g, pos, Calls(t.p2), k + 1 + Size(t.p1), Size(t.p2)) && RuleTable(s1, g, pos, k, Size(t))
    ensures Laid(s2, k, Right(t), Fixed(k - g, pos)) && Renamed(s, s2, g, pos, Calls(t), k, Size(t))
  {
    hide Laid, Named, Renamed, RuleTable, Right, Agree, NodeFor, Rotate, Size, Calls;
    PairFacts(t);
    TwoLaid(s, k, t, Pending);
    RootStays(s[k], t, k - g, pos);
    RightPair(t);
    PartTable(s, g, pos, k, Size(t), k, 1);
    PartTable(s1, g, pos, k, Size(t), k, 1);
    PartTable(s1, g, pos, k, Size(t), k + 1, Size(t.p1));
    Lengths(s, s1, s2, g, pos, Calls(t.p1), Calls(t.p2), k + 1, Size(t.p1), k + 1 + Size(t.p1), Size(t.p2));
    RenamedAgree(s, s1, g, pos, Calls(t.p1), k + 1, Size(t.p1), k, 1);
    RenamedAgree(s1, s2, g, pos, Calls(t.p2), k + 1 + Size(t.p1), Size(t.p2), k, 1);
    RenamedAgree(s1, s2, g, pos, Calls(t.p2), k + 1 + Size(t.p1), Size(t.p2), k + 1, Size(t.p1));
    AgreePart(s, k, s1, k, 1, 0, 1);
    AgreePart(s1, k, s2, k, 1, 0, 1);
    LaidMove(s1, k + 1, s2, k + 1, Right(t.p1), Fixed(k + 1 - g, pos));
    TwoLaid(s2, k, Right(t), Fixed(k - g, pos));
    RenamedTwice(s, s1, s2, g, pos, Calls(t.p1), Calls(t.p2), k, Size(t), k + 1, Size(t.p1), k + 1 + Size(t.p1),
                 Size(t.p2));
  }

  lemma PairFacts(t: Tree)
    requires Two(t)
    ensures Size(t) == 1 + Size(t.p1) + Size(t.p2) && Calls(t) == Calls(t.p1) + Calls(t.p2)
  {
  }

  /** The root of a pair is the same before and after. */
  lemma RootStays(x: Node, t: Tree, off: int, pos: seq<nat>)
    requires Two(t) && !LeftNested(t)
    ensures NodeFor(x, t, Pending) ==> NodeFor(x, Right(t), Fixed(off, pos))
  {
    RightPair(t);
  }

  lemma PartTable(s: seq<Node>, g: nat, pos: seq<nat>, k: nat, n: nat, k1: nat, n1: nat)
    requires RuleTable(s, g, pos, k, n) && k <= k1 && k1 + n1 <= k + n
    ensures RuleTable(s, g, pos, k1, n1) && forall q, r :: 0 <= q < r < |pos| ==> pos[q] < pos[r]
  {
  }

  lemma Lengths(s: seq<Node>, s1: seq<Node>, s2: seq<Node>, g: nat, pos: seq<nat>, c1: set<nat>, c2: set<nat>, k1: nat,
                n1: nat, k2: nat, n2: nat)
    requires Renamed(s, s1, g, pos, c1, k1, n1) && Renamed(s1, s2, g, pos, c2, k2, n2)
    ensures |s| == |s1| == |s2|
  {
  }

  lemma RightPair(t: Tree)
    requires Two(t) && !LeftNested(t)
    ensures Two(Right(t)) && Right(t).p1 == Right(t.p1) && Right(t).p2 == Right(t.p2) && Rotate(t) == t
  {
  }

  /** 'finalfix': resolves the calls of a tree and makes its pairs right associative, in place; fails exactly if a
      call has no rule. */
  method FinalFix(a: array<Node>, g: nat, pos: seq<nat>, k: nat, ghost t: Tree) returns (ok: bool)
    requires g <= k && k + Size(t) <= a.Length && Laid(a[..], k, t, Pending) && RuleTable(a[..], g, pos, k, Size(t))
    modifies a
    ensures ok <==> InTable(Calls(t), pos)
    ensures ok ==>
      Laid(a[..], k, Right(t), Fixed(k - g, pos)) && Renamed(old(a[..]), a[..], g, pos, Calls(t), k, Size(t))
    decreases Size(t), 1
  {
    hide Laid, Named, Renamed, RuleTable, Right, Rotate;
    RootLaid(a[..], k, t, Pending);
    var tag := a[k].tag;
    if tag == GRAMMAR {
      LeafFixed(a[..], g, pos, k, t);
      return true;
    }
    if tag == OPENCALL {
      ok := FixOneCall(a, g, pos, k, t.rule);
      assert Right(t) == t by { RightCall(t); }
      return;
    }
    if Siblings(tag) == 1 {
      OneLaid(a[..], k, t, Pending);
      PartTable(a[..], g, pos, k, Size(t), k + 1, Size(t.p));
      ok := FinalFix(a, g, pos, k + 1, t.p);
      if ok { OneFixed(old(a[..]), a[..], g, pos, k, t); }
    } else if Siblings(tag) == 2 {
      ok := FixPair(a, g, pos, k, t);
    } else {
      LeafFixed(a[..], g, pos, k, t);
      ok := true;
    }
  }

  /** 'finalfix' on a pattern that is no rule of a grammar: fails exactly if there is a call in it. */
  method FixPattern(a: array<Node>, ghost t: Tree) returns (ok: bool)
    requires a.Length == Size(t) && Laid(a[..], 0, t, Pending)
    modifies a
    ensures ok <==> Calls(t) == {}
    ensures ok ==> Laid(a[..], 0, Right(t), Pending)
  {
    hide Laid, Right, Calls;
    ok := FinalFix(a, 0, [], 0, t);
    if ok {
      assert Calls(t) == {};
      RightCalls(t);
      NothingPending(a[..], 0, Right(t), Fixed(0, []));
    }
  }

  /** Without calls a tree is laid out the same before and after. */
  lemma {:induction false} NothingPending(s: seq<Node>, k: nat, t: Tree, m: Stage)
    requires Laid(s, k, t, m) && Calls(t) == {}
    ensures Laid(s, k, t, Pending)
    decreases t
  {
    hide Laid, LaidRules, RulePositions, SizeRules, LaidBuffer, Size, NodeFor, Calls;
    NotACall(t);
    RootPending(s, k, t, m);
    if One(t) {
      OneLaid(s, k, t, m);
      OneLaid(s, k, t, Pending);
      NothingPending(s, k + 1, t.p, Shift(m, 1));
    } else if Two(t) {
      PairFacts(t);
      TwoLaid(s, k, t, m);
      TwoLaid(s, k, t, Pending);
      NothingPending(s, k + 1, t.p1, Shift(m, 1));
      NothingPending(s, k + 1 + Size(t.p1), t.p2, Shift(m, 1 + Size(t.p1)));
    } else if t.TGrammar? {
      GrammarLaid(s, k, t, m);
      GrammarLaid(s, k, t, Pending);
    } else {
      LeafLaid(s, k, t, m);
      LeafLaid(s, k, t, Pending);
    }
  }

  lemma RootPending(s: seq<Node>, k: nat, t: Tree, m: Stage)
    requires Laid(s, k, t, m) && !t.TCall?
    ensures k < |s| && NodeFor(s[k], t, Pending) && NodeFor(s[k], t, m)
    ensures One(t) ==> Calls(t.p) == Calls(t)
  {
    hide LaidRules, RulePositions, SizeRules, LaidBuffer;
  }

  lemma RightCall(t: Tree)
    requires t.TCall?
    ensures Right(t) == t && Calls(t) == {t.rule}
  {
  }

  method FixPair(a: array<Node>, g: nat, pos: seq<nat>, k: nat, ghost t: Tree) returns (ok: bool)
    requires Two(t) && g <= k && k + Size(t) <= a.Length && Laid(a[..], k, t, Pending)
    requires RuleTable(a[..], g, pos, k, Size(t))
    modifies a
    ensures ok <==> InTable(Calls(t), pos)
    ensures ok ==>
      Laid(a[..], k, Right(t), Fixed(k - g, pos)) && Renamed(old(a[..]), a[..], g, pos, Calls(t), k, Size(t))
    decreases Size(t), 0
  {
    hide Laid, Named, Renamed, RuleTable, Right, Rotate, Size, Calls, InTable, NodeFor;
    CorrectAssociativity(a, k, t);
    ghost var r := Rotate(t);
    ghost var s := a[..];
    RotateCalls(t);
    TableKept(old(a[..]), s, g, pos, k, Size(t));
    PairFacts(r);
    BothInTable(Calls(r.p1), Calls(r.p2), pos);
    PairLaid(s, k, r);
    PartTable(s, g, pos, k, Size(t), k + 1, Size(r.p1));
    ok := FinalFix(a, g, pos, k + 1, r.p1);
    if !ok { return; }
    ghost var s1 := a[..];
    RenamedTable(s, s1, g, pos, Calls(r.p1), k + 1, Size(r.p1), k, Size(t));
    PairSecond(s, s1, g, pos, k, r);
    PartTable(s1, g, pos, k, Size(t), k + 1 + Size(r.p1), Size(r.p2));
    ok := FinalFix(a, g, pos, k + a[k].ps, r.p2);
    if ok {
      TwoFixed(s, s1, a[..], g, pos, k, r);
      RightRotated(t);
      KeptRenamed(old(a[..]), s, a[..], g, pos, Calls(t), k, Size(t));
    }
  }

  lemma BothInTable(c1: set<nat>, c2: set<nat>, pos: seq<nat>)
    ensures InTable(c1 + c2, pos) <==> InTable(c1, pos) && InTable(c2, pos)
  {
  }

  lemma TableKept(s: seq<Node>, s': seq<Node>, g: nat, pos: seq<nat>, k: nat, n: nat)
    requires RuleTable(s, g, pos, k, n) && |s| == |s'|
    requires forall x :: 0 <= x < |s| && !(k <= x < k + n) ==> s'[x] == s[x]
    ensures RuleTable(s', g, pos, k, n)
  {
  }

  lemma KeptRenamed(s: seq<Node>, s1: seq<Node>, s2: seq<Node>, g: nat, pos: seq<nat>, calls: set<nat>, k: nat, n: nat)
    requires |s| == |s1| && forall x :: 0 <= x < |s| && !(k <= x < k + n) ==> s1[x] == s[x]
    requires Renamed(s1, s2, g, pos, calls, k, n)
    ensures Renamed(s, s2, g, pos, calls, k, n)
  {
  }

  lemma RightRotated(t: Tree)
    requires Two(t)
    ensures Right(Rotate(t)) == Right(t)
  {
  }

  /** Fixing the first child leaves the root and the second child alone. */
  lemma PairSecond(s: seq<Node>, s1: seq<Node>, g: nat, pos: seq<nat>, k: nat, t: Tree)
    requires Two(t) && k + Size(t) <= |s| && Laid(s, k, t, Pending) && RuleTable(s, g, pos, k, Size(t))
    requires Renamed(s, s1, g, pos, Calls(t.p1), k + 1, Size(t.p1))
    ensures |s1| == |s| && s1[k] == s[k] && s[k].N? && s[k].ps == 1 + Size(t.p1)
    ensures Laid(s1, k + 1 + Size(t.p1), t.p2, Pending)
  {
    hide Laid, Named, Size, Agree, Renamed, RuleTable, NodeFor;
    PairFacts(t);
    PairLaid(s, k, t);
    PartTable(s, g, pos, k, Size(t), k, 1);
    PartTable(s, g, pos, k, Size(t), k + 1 + Size(t.p1), Size(t.p2));
    OneLength(s, s1, g, pos, Calls(t.p1), k + 1, Size(t.p1));
    RenamedAgree(s, s1, g, pos, Calls(t.p1), k + 1, Size(t.p1), k, 1);
    RenamedAgree(s, s1, g, pos, Calls(t.p1), k + 1, Size(t.p1), k + 1 + Size(t.p1), Size(t.p2));
    AgreePart(s, k, s1, k, 1, 0, 1);
    LaidMove(s, k + 1 + Size(t.p1), s1, k + 1 + Size(t.p1), t.p2, Pending);
  }

  lemma OneLength(s: seq<Node>, s1: seq<Node>, g: nat, pos: seq<nat>, c1: set<nat>, k1: nat, n1: nat)
    requires Renamed(s, s1, g, pos, c1, k1, n1)
    ensures |s| == |s1|
  {
  }

  // ----- fixing a whole grammar -----

  lemma {:induction false} RightCalls(t: Tree)
    ensures Calls(Right(t)) == Calls(t)
    decreases Size(t)
  {
    if One(t) {
      RightCalls(t.p);
    } else if Two(t) {
      RotateCalls(t);
      RightCalls(Rotate(t).p1);
      RightCalls(Rotate(t).p2);
    }
  }

  /** The last rules of a grammar, the first of them with number 'index' and at node k. */
  ghost predicate LastRules(g: nat, pos: seq<nat>, k: nat, rs: seq<Tree>, index: nat) {
    && g <= k && |pos| == index + |rs| && pos[index..] == RulePositions(rs, k - g)
    && (forall r :: 0 <= r < index ==> g + pos[r] < k)
    && (forall q, r :: 0 <= q < r < |pos| ==> pos[q] < pos[r])
  }

  lemma LastRulesNext(g: nat, pos: seq<nat>, k: nat, rs: seq<Tree>, index: nat)
    requires LastRules(g, pos, k, rs, index) && rs != []
    ensures index < |pos| && LastRules(g, pos, k + 1 + Size(rs[0]), rs[1..], index + 1) && pos[index] == k - g
    ensures forall q, r :: 0 <= q < r < |pos| ==> pos[q] < pos[r]
    ensures forall r :: index < r < |pos| ==> k + 1 + Size(rs[0]) <= g + pos[r]
  {
    hide Size;
    var next := RulePositions(rs[1..], k - g + 1 + Size(rs[0]));
    assert pos[index..] == [k - g] + next;
    assert pos[index + 1..] == pos[index..][1..] == next;
    assert pos[index] == pos[index..][0];
    forall r | index < r < |pos| ensures k + 1 + Size(rs[0]) <= g + pos[r] {
      assert pos[r] == next[r - index - 1];
    }
  }

  /** Naming rules elsewhere in the grammar names these rules too, and does nothing else to them. */
  lemma {:induction false} RulesRenamed(s: seq<Node>, s': seq<Node>, g: nat, pos: seq<nat>, calls: set<nat>, k0: nat,
                                        n0: nat, k: nat, rs: seq<Tree>, index: nat, named: set<nat>, m: Stage)
    requires LaidRules(s, k, rs, index, named, m) && k + SizeRules(rs) <= |s| && LastRules(g, pos, k, rs, index)
    requires Renamed(s, s', g, pos, calls, k0, n0) && k0 + n0 <= k
    ensures LaidRules(s', k, rs, index, named + calls, m)
    decreases rs
  {
    hide Laid, Size, Agree, Named, LastRules;
    if rs != [] {
      var d := 1 + Size(rs[0]);
      LastRulesNext(g, pos, k, rs, index);
      BodyUntouched(s, s', g, pos, calls, k0, n0, k, rs, index);
      LaidMove(s, k + 1, s', k + 1, rs[0], Shift(m, 1));
      HeadRenamed(s, s', g, pos, calls, k0, n0, k, index);
      RulesRenamed(s, s', g, pos, calls, k0, n0, k + d, rs[1..], index + 1, named, Shift(m, d));
    }
  }

  lemma BodyUntouched(s: seq<Node>, s': seq<Node>, g: nat, pos: seq<nat>, calls: set<nat>, k0: nat, n0: nat, k: nat,
                      rs: seq<Tree>, index: nat)
    requires rs != [] && LastRules(g, pos, k, rs, index) && k + SizeRules(rs) <= |s|
    requires Renamed(s, s', g, pos, calls, k0, n0) && k0 + n0 <= k
    ensures Agree(s, k + 1, s', k + 1, Size(rs[0])) && |s'| == |s|
  {
    LastRulesNext(g, pos, k, rs, index);
  }

  lemma HeadRenamed(s: seq<Node>, s': seq<Node>, g: nat, pos: seq<nat>, calls: set<nat>, k0: nat, n0: nat, k: nat,
                    index: nat)
    requires Renamed(s, s', g, pos, calls, k0, n0) && Head(s, k, RULE) && (k < k0 || k0 + n0 <= k)
    requires index < |pos| && pos[index] == k - g
    requires forall q, r :: 0 <= q < r < |pos| ==> pos[q] < pos[r]
    ensures |s'| == |s| && s'[k] == (if index in calls then s[k].(key := index + 1) else s[k])
  {
    assert forall r :: 0 <= r < |pos| && pos[r] == k - g ==> r == index;
  }

  /** The first of the rules is fixed. */
  lemma FirstRuleFixed(s: seq<Node>, s1: seq<Node>, g: nat, pos: seq<nat>, k: nat, rs: seq<Tree>, index: nat,
                       named: set<nat>)
    requires rs != [] && LaidRules(s, k, rs, index, named, Pending) && k + SizeRules(rs) < |s|
    requires LastRules(g, pos, k, rs, index)
    requires Head(s, k + SizeRules(rs), TRUE)
    requires Renamed(s, s1, g, pos, Calls(rs[0]), k + 1, Size(rs[0]))
    ensures var d := 1 + Size(rs[0]);
      && LaidRules(s1, k + d, rs[1..], index + 1, named + Calls(rs[0]), Pending)
      && Head(s1, k + d + SizeRules(rs[1..]), TRUE)
      && |s1| == |s| && s1[k] == (if index in Calls(rs[0]) then s[k].(key := index + 1) else s[k])
  {
    hide Laid, Size;
    var d := 1 + Size(rs[0]);
    LastRulesNext(g, pos, k, rs, index);
    RulesRenamed(s, s1, g, pos, Calls(rs[0]), k + 1, Size(rs[0]), k + d, rs[1..], index + 1, named, Pending);
    HeadRenamed(s, s1, g, pos, Calls(rs[0]), k + 1, Size(rs[0]), k, index);
    EndUnnamed(s, g, pos, k, rs, index, Calls(rs[0]));
  }

  /** The node after the last rule is no rule. */
  lemma EndUnnamed(s: seq<Node>, g: nat, pos: seq<nat>, k: nat, rs: seq<Tree>, index: nat, calls: set<nat>)
    requires LastRules(g, pos, k, rs, index) && k + SizeRules(rs) < |s|
    ensures Named(s[k + SizeRules(rs)], k + SizeRules(rs) - g, pos, calls) == s[k + SizeRules(rs)]
  {
    forall r | 0 <= r < |pos| ensures pos[r] != k + SizeRules(rs) - g {
      if r >= index { assert pos[r] == RulePositions(rs, k - g)[r - index]; }
    }
  }

  /** All the rules are fixed: the first of them, then the others. */
  lemma RulesFixed(s: seq<Node>, s1: seq<Node>, s2: seq<Node>, g: nat, pos: seq<nat>, k: nat, rs: seq<Tree>, index: nat,
                   named: set<nat>)
    requires rs != [] && LaidRules(s, k, rs, index, named, Pending) && k + SizeRules(rs) <= |s|
    requires LastRules(g, pos, k, rs, index)
    requires Laid(s1, k + 1, Right(rs[0]), Fixed(k + 1 - g, pos))
    requires Renamed(s, s1, g, pos, Calls(rs[0]), k + 1, Size(rs[0]))
    requires |s1| == |s| && s1[k] == (if index in Calls(rs[0]) then s[k].(key := index + 1) else s[k])
    requires var d := 1 + Size(rs[0]);
      && LaidRules(s2, k + d, RightAll(rs[1..]), index + 1, named + Calls(rs[0]) + AllCalls(rs[1..]),
                   Fixed(k + d - g, pos))
      && Renamed(s1, s2, g, pos, AllCalls(rs[1..]), k + d, SizeRules(rs[1..]))
    ensures LaidRules(s2, k, RightAll(rs), index, named + AllCalls(rs), Fixed(k - g, pos))
    ensures Renamed(s, s2, g, pos, AllCalls(rs), k, SizeRules(rs))
  {
    hide Laid, Size, Named, Right;
    var d := 1 + Size(rs[0]);
    LastRulesNext(g, pos, k, rs, index);
    HeadRenamed(s1, s2, g, pos, AllCalls(rs[1..]), k + d, SizeRules(rs[1..]), k, index);
    BodyKept(s1, s2, g, pos, AllCalls(rs[1..]), k, rs, index);
    LaidMove(s1, k + 1, s2, k + 1, Right(rs[0]), Fixed(k + 1 - g, pos));
    RenamedTwice(s, s1, s2, g, pos, Calls(rs[0]), AllCalls(rs[1..]), k, SizeRules(rs), k + 1, Size(rs[0]), k + d,
                 SizeRules(rs[1..]));
    assert RightAll(rs)[1..] == RightAll(rs[1..]);
    assert named + Calls(rs[0]) + AllCalls(rs[1..]) == named + AllCalls(rs);
  }

  lemma BodyKept(s: seq<Node>, s': seq<Node>, g: nat, pos: seq<nat>, calls: set<nat>, k: nat, rs: seq<Tree>, index: nat)
    requires rs != [] && LastRules(g, pos, k, rs, index) && k + SizeRules(rs) <= |s|
    requires Renamed(s, s', g, pos, calls, k + 1 + Size(rs[0]), SizeRules(rs[1..]))
    ensures Agree(s, k + 1, s', k + 1, Size(rs[0]))
  {
    LastRulesNext(g, pos, k, rs, index);
  }

  /** 'finalfix' on a list of rules: each body in turn. */
  method FixRules(a: array<Node>, g: nat, pos: seq<nat>, k: nat, ghost rs: seq<Tree>, ghost index: nat,
                  ghost named: set<nat>) returns (ok: bool)
    requires k + SizeRules(rs) < a.Length && LaidRules(a[..], k, rs, index, named, Pending)
    requires Head(a[..], k + SizeRules(rs), TRUE)
    requires LastRules(g, pos, k, rs, index) && RuleTable(a[..], g, pos, k, 0)
    modifies a
    ensures ok <==> InTable(AllCalls(rs), pos)
    ensures ok ==> LaidRules(a[..], k, RightAll(rs), index, named + AllCalls(rs), Fixed(k - g, pos))
    ensures ok ==> Renamed(old(a[..]), a[..], g, pos, AllCalls(rs), k, SizeRules(rs))
    decreases |rs|
  {
    hide Laid, Size, Named, Right, Renamed, RuleTable, LastRules;
    ghost var s := a[..];
    if a[k].tag != RULE {
      LeafRenamed(s, g, pos, k);
      return true;
    }
    BodyTable(s, g, pos, k, rs, index);
    ok := FinalFix(a, g, pos, k + 1, rs[0]);
    if !ok { return; }
    ghost var s1 := a[..];
    FirstRuleFixed(s, s1, g, pos, k, rs, index, named);
    LastRulesNext(g, pos, k, rs, index);
    ghost var d := 1 + Size(rs[0]);
    PartTable(s, g, pos, k + 1, Size(rs[0]), k + 1, 0);
    RenamedTable(s, s1, g, pos, Calls(rs[0]), k + 1, Size(rs[0]), k + 1, 0);
    TableZone(s1, g, pos, k + 1, k + d);
    ok := FixRules(a, g, pos, k + a[k].ps, rs[1..], index + 1, named + Calls(rs[0]));
    if ok { RulesFixed(s, s1, a[..], g, pos, k, rs, index, named); }
  }

  lemma LeafRenamed(s: seq<Node>, g: nat, pos: seq<nat>, k: nat)
    ensures Renamed(s, s, g, pos, {}, k, 0) && RightAll([]) == []
  {
  }

  lemma TableZone(s: seq<Node>, g: nat, pos: seq<nat>, k: nat, k': nat)
    requires RuleTable(s, g, pos, k, 0)
    ensures RuleTable(s, g, pos, k', 0)
  {
  }

  lemma BodyTable(s: seq<Node>, g: nat, pos: seq<nat>, k: nat, rs: seq<Tree>, index: nat)
    requires rs != [] && LastRules(g, pos, k, rs, index) && RuleTable(s, g, pos, k, 0)
    ensures g <= k && RuleTable(s, g, pos, k + 1, Size(rs[0]))
  {
    LastRulesNext(g, pos, k, rs, index);
  }

  lemma {:induction false} RightAllCalls(rs: seq<Tree>)
    ensures AllCalls(RightAll(rs)) == AllCalls(rs) && SizeRules(RightAll(rs)) == SizeRules(rs)
    ensures forall from: nat :: RulePositions(RightAll(rs), from) == RulePositions(rs, from)
    decreases |rs|
  {
    if rs != [] {
      RightCalls(rs[0]);
      assert RightAll(rs)[1..] == RightAll(rs[1..]);
      RightAllCalls(rs[1..]);
    }
  }

  /** The named rules are the ones 'verifygrammar' looks at. */
  lemma {:induction false} NamedAreUsed(rs: seq<Tree>, r: nat)
    requires r < |rs|
    ensures r in AllCalls(rs) + {0} <==> Used(rs, r)
  {
    CalledSomewhere(rs, r);
  }

  lemma {:induction false} CalledSomewhere(rs: seq<Tree>, r: nat)
    ensures r in AllCalls(rs) <==> exists m :: 0 <= m < |rs| && r in Calls(rs[m])
    decreases |rs|
  {
    if rs != [] {
      CalledSomewhere(rs[1..], r);
      if r in AllCalls(rs[1..]) {
        var m :| 0 <= m < |rs[1..]| && r in Calls(rs[1..][m]);
        assert r in Calls(rs[m + 1]);
      }
      if m :| 0 < m < |rs| && r in Calls(rs[m]) {
        assert r in Calls(rs[1..][m - 1]);
      }
    }
  }

  /** A grammar as 'buildgrammar' leaves it: no rule has a name, no call is resolved. */
  ghost predicate Built(s: seq<Node>, k: nat, rules: seq<Tree>) {
    && Head(s, k, GRAMMAR) && s[k].ps == |rules|
    && LaidRules(s, k + 1, rules, 0, {}, Pending) && Head(s, k + 1 + SizeRules(rules), TRUE)
  }

  lemma {:induction false} RulesHeads(s: seq<Node>, g: nat, pos: seq<nat>, k: nat, rs: seq<Tree>, index: nat, m: Stage,
                                      r: nat)
    requires LaidRules(s, k, rs, index, {}, m) && LastRules(g, pos, k, rs, index) && index <= r < |pos|
    ensures Head(s, g + pos[r], RULE)
    decreases rs
  {
    LastRulesNext(g, pos, k, rs, index);
    if r > index { RulesHeads(s, g, pos, k + 1 + Size(rs[0]), rs[1..], index + 1, Shift(m, 1 + Size(rs[0])), r); }
  }

  lemma BuiltTable(s: seq<Node>, g: nat, rules: seq<Tree>)
    requires Built(s, g, rules)
    ensures var pos := RulePositions(rules, 1); LastRules(g, pos, g + 1, rules, 0) && RuleTable(s, g, pos, g + 1, 0)
  {
    var pos := RulePositions(rules, 1);
    assert pos[0..] == pos;
    forall r | 0 <= r < |pos| ensures Head(s, g + pos[r], RULE) { RulesHeads(s, g, pos, g + 1, rules, 0, Pending, r); }
  }

  /** The calls of 'finalfix' and 'initialrulename' in 'newgrammar': the array ends up holding the right-associative
      grammar, with names for exactly the rules in use; they fail exactly if some call has no rule. */
  method FixGrammar(a: array<Node>, g: nat, pos: seq<nat>, ghost rules: seq<Tree>) returns (ok: bool)
    requires rules != [] && g + 2 + SizeRules(rules) <= a.Length && Built(a[..], g, rules)
    requires pos == RulePositions(rules, 1)
    modifies a
    ensures ok <==> InTable(AllCalls(rules), pos)
    ensures ok ==> Laid(a[..], g, TGrammar(RightAll(rules)), Pending)
    ensures ok ==> forall x :: 0 <= x < a.Length && !(g <= x < g + 2 + SizeRules(rules)) ==> a[x] == old(a[x])
  {
    hide Laid, Size, Right, RightAll, LastRules, RuleTable, RulePositions, LaidRules, SizeRules, AllCalls, Renamed;
    BuiltTable(a[..], g, rules);
    ok := FixRules(a, g, pos, g + 1, rules, 0, {});
    if !ok { return; }
    RightAllCalls(rules);
    GrammarKept(old(a[..]), a[..], g, pos, rules);
    ghost var s := a[..];
    assert {} + AllCalls(rules) == AllCalls(rules);
    FirstHead(s, g, RightAll(rules), AllCalls(rules), pos);
    if a[g + 1].key == 0 { a[g + 1] := a[g + 1].(key := 1); }
    FirstNamed(s, a[..], g, RightAll(rules), AllCalls(rules), pos);
    GrammarLaid(a[..], g, TGrammar(RightAll(rules)), Pending);
  }

  /** What is not a rule does not change. */
  lemma GrammarKept(s: seq<Node>, s': seq<Node>, g: nat, pos: seq<nat>, rules: seq<Tree>)
    requires g + 2 + SizeRules(rules) <= |s| && LastRules(g, pos, g + 1, rules, 0)
    requires Renamed(s, s', g, pos, AllCalls(rules), g + 1, SizeRules(rules))
    ensures |s'| == |s| && forall x :: 0 <= x < |s| && !(g < x < g + 1 + SizeRules(rules)) ==> s'[x] == s[x]
  {
    assert pos[0..] == pos;
    forall x | 0 <= x < |s| && !(g < x < g + 1 + SizeRules(rules)) ensures s'[x] == s[x] {
      assert forall r :: 0 <= r < |pos| ==> pos[r] != x - g;
    }
  }

  lemma FirstHead(s: seq<Node>, g: nat, rs: seq<Tree>, used: set<nat>, pos: seq<nat>)
    requires |rs| > 0 && LaidRules(s, g + 1, rs, 0, used, Fixed(1, pos))
    ensures Head(s, g + 1, RULE)
  {
  }

  lemma FirstNamed(s: seq<Node>, s': seq<Node>, g: nat, rs: seq<Tree>, used: set<nat>, pos: seq<nat>)
    requires |rs| > 0 && LaidRules(s, g + 1, rs, 0, used, Fixed(1, pos)) && Head(s, g + 1, RULE)
    requires g + 1 + SizeRules(rs) <= |s|
    requires s' == if s[g + 1].key == 0 then s[g + 1 := s[g + 1].(key := 1)] else s
    ensures LaidRules(s', g + 1, rs, 0, used + {0}, Fixed(1, pos))
  {
    hide Laid, Size;
    var d := 1 + Size(rs[0]);
    var m := Fixed(1, pos);
    LaidMove(s, g + 2, s', g + 2, rs[0], Shift(m, 1));
    LaidRulesMove(s, g + 1 + d, s', g + 1 + d, rs[1..], 1, used, Shift(m, d));
    UsedFrom(s', g + 1 + d, rs[1..], 1, used, Shift(m, d));
  }

  lemma {:induction false} UsedFrom(s: seq<Node>, k: nat, rs: seq<Tree>, index: nat, used: set<nat>, m: Stage)
    requires index > 0 && LaidRules(s, k, rs, index, used, m)
    ensures LaidRules(s, k, rs, index, used + {0}, m)
    decreases rs
  {
    if rs != [] { UsedFrom(s, k + 1 + Size(rs[0]), rs[1..], index + 1, used, Shift(m, 1 + Size(rs[0]))); }
  }

  /** The grammar that ends up in the array matches as the one that was built. */
  lemma GrammarEval(rules: seq<Tree>, s: seq<Byte>, i: nat, n: nat)
    requires i <= |s|
    ensures Eval([], TGrammar(RightAll(rules)), s, i, n) == Eval([], TGrammar(rules), s, i, n)
  {
    if rules != [] { RightEval(rules, rules[0], s, i, n); }
  }

  // ----- 'checkaux' on the array -----

  /** Where the body of a rule is. */
  lemma {:induction false} RuleBody(s: seq<Node>, k: nat, rs: seq<Tree>, from: nat, index: nat, used: set<nat>,
                                    m: Stage, r: nat)
    requires LaidRules(s, k, rs, index, used, m) && r < |rs|
    ensures var d := RulePositions(rs, from)[r] - from;
      d >= 0 && Head(s, k + d, RULE) && Laid(s, k + d + 1, rs[r], Shift(m, d + 1))
    decreases r
  {
    hide Laid, Size, LaidRules, RulePositions;
    RulesParts(s, k, rs, index, used, m);
    var d := 1 + Size(rs[0]);
    PositionParts(rs, from, r);
    if r > 0 {
      RuleBody(s, k + d, rs[1..], from + d, index + 1, used, Shift(m, d), r - 1);
    }
  }

  lemma RulesParts(s: seq<Node>, k: nat, rs: seq<Tree>, index: nat, used: set<nat>, m: Stage)
    requires rs != [] && LaidRules(s, k, rs, index, used, m)
    ensures Head(s, k, RULE) && Laid(s, k + 1, rs[0], Shift(m, 1))
    ensures var d := 1 + Size(rs[0]); LaidRules(s, k + d, rs[1..], index + 1, used, Shift(m, d))
  {
    hide Laid, Size;
  }

  lemma PositionParts(rs: seq<Tree>, from: nat, r: nat)
    requires r < |rs|
    ensures RulePositions(rs, from)[r] ==
      if r == 0 then from else RulePositions(rs[1..], from + 1 + Size(rs[0]))[r - 1]
    ensures r > 0 ==> rs[1..][r - 1] == rs[r]
  {
    hide Size;
  }

  /** The node at k belongs to a grammar at b with the rules g, or to no grammar yet. */
  ghost predicate Inside(s: seq<Node>, k: nat, g: seq<Tree>, b: nat, m: Stage) {
    if m.Pending? then g == []
    else m.pos == RulePositions(g, 1) && k == b + m.off && LaidRules(s, b + 1, g, 0, AllCalls(g) + {0}, Fixed(1, m.pos))
  }

  lemma CallLeads(s: seq<Node>, k: nat, g: seq<Tree>, b: nat, m: Stage, r: nat)
    requires Inside(s, k, g, b, m) && m.Fixed? && Laid(s, k, TCall(r), m)
    ensures r < |g| == |m.pos| && s[k].N? && k + s[k].ps >= 0
    ensures var k' := k + s[k].ps;
      Head(s, k', RULE) && Laid(s, k' + 1, g[r], Fixed(m.pos[r] + 1, m.pos)) && k' == b + m.pos[r]
  {
    hide Laid, LaidRules, RulePositions, AllCalls;
    CallNode(s, k, m, r);
    RuleBody(s, b + 1, g, 1, 0, AllCalls(g) + {0}, Fixed(1, m.pos), r);
  }

  lemma CallNode(s: seq<Node>, k: nat, m: Stage, r: nat)
    requires m.Fixed? && Laid(s, k, TCall(r), m)
    ensures k < |s| && s[k].N? && r < |m.pos| && s[k].ps == m.pos[r] - m.off
  {
    hide LaidRules, RulePositions;
    LeafLaid(s, k, TCall(r), m);
  }

  lemma FirstLaid(s: seq<Node>, k: nat, t: Tree, m: Stage)
    requires t.TGrammar? && t.rules != [] && Laid(s, k, t, m)
    ensures var m' := Fixed(2, RulePositions(t.rules, 1));
      Head(s, k + 1, RULE) && Laid(s, k + 2, t.rules[0], m') && Inside(s, k + 2, t.rules, k, m')
  {
    hide Laid, NodeFor;
    GrammarLaid(s, k, t, m);
  }

  lemma TagSays(s: seq<Node>, k: nat, t: Tree, m: Stage)
    requires Laid(s, k, t, m)
    ensures k < |s| && s[k].N? && s[k].tag == TagOf(t, m)
    ensures t.TSeq? || t.TChoice? ==> s[k].ps == 1 + Size(t.p1)
  {
  }

  /** 'checkaux' as it is written, on an array on which it returns; 'd' only witnesses that. */
  method CheckNodes(s: seq<Node>, k: nat, pred: Pred, ghost g: seq<Tree>, ghost b: nat, ghost t: Tree, ghost m: Stage,
                    ghost d: nat)
    returns (r: bool)
    requires Laid(s, k, t, m) && Inside(s, k, g, b, m) && CheckEnds(g, t, pred, d)
    requires GrammarsHaveRules(t) && forall x :: 0 <= x < |g| ==> GrammarsHaveRules(g[x])
    ensures r == CheckAux(g, t, pred, d)
    decreases Height(g, t), d, t
  {
    hide Laid, RulePositions, LaidRules, Size, Height, Inside, AllCalls;
    HeightFalls(g, t);
    TagSays(s, k, t, m);
    match s[k].tag {
      case CHAR => return false;
      case SET => return false;
      case ANY => return false;
      case FALSE => return false;
      case OPENCALL =>
        NoRules(s, k, g, b, m);
        return false;
      case REP => return true;
      case TRUE => return true;
      case NOT => return pred == PEnullable;
      case BEHIND => return pred == PEnullable;
      case AND =>
        if pred == PEnullable { return true; }
        ChildOne(s, k, g, b, t, m);
        r := CheckNodes(s, k + 1, pred, g, b, t.p, Shift(m, 1), d);
      case CAPTURE =>
        ChildOne(s, k, g, b, t, m);
        r := CheckNodes(s, k + 1, pred, g, b, t.p, Shift(m, 1), d);
      case SEQ =>
        ChildTwo(s, k, g, b, t, m);
        r := CheckNodes(s, k + 1, pred, g, b, t.p1, Shift(m, 1), d);
        if !r { return false; }
        r := CheckNodes(s, k + s[k].ps, pred, g, b, t.p2, Shift(m, 1 + Size(t.p1)), d);
      case CHOICE =>
        ChildTwo(s, k, g, b, t, m);
        r := CheckNodes(s, k + s[k].ps, pred, g, b, t.p2, Shift(m, 1 + Size(t.p1)), d);
        if r { return true; }
        r := CheckNodes(s, k + 1, pred, g, b, t.p1, Shift(m, 1), d);
      case GRAMMAR =>
        FirstLaid(s, k, t, m);
        r := CheckNodes(s, k + 2, pred, t.rules, k, t.rules[0], Fixed(2, RulePositions(t.rules, 1)), DEPTH);
      case CALL =>
        CallLeads(s, k, g, b, m, t.rule);
        CallInside(s, k, g, b, m, t.rule);
        r := CheckNodes(s, k + s[k].ps + 1, pred, g, b, g[t.rule], Fixed(m.pos[t.rule] + 1, m.pos), d - 1);
    }
  }

  /** Every grammar has a first rule. */
  predicate GrammarsHaveRules(t: Tree)
    decreases t
  {
    match t
    case TRep(p) => GrammarsHaveRules(p)
    case TNot(p) => GrammarsHaveRules(p)
    case TAnd(p) => GrammarsHaveRules(p)
    case TBehind(_, p) => GrammarsHaveRules(p)
    case TCapture(_, _, p) => GrammarsHaveRules(p)
    case TSeq(p1, p2) => GrammarsHaveRules(p1) && GrammarsHaveRules(p2)
    case TChoice(p1, p2) => GrammarsHaveRules(p1) && GrammarsHaveRules(p2)
    case TGrammar(rules) => rules != [] && forall k :: 0 <= k < |rules| ==> GrammarsHaveRules(rules[k])
    case _ => true
  }

  lemma {:induction false} FitHasRules(t: Tree)
    requires Fit(t)
    ensures GrammarsHaveRules(t)
    decreases t
  {
    match t
    case TRep(p) => FitHasRules(p);
    case TNot(p) => FitHasRules(p);
    case TAnd(p) => FitHasRules(p);
    case TBehind(_, p) => FitHasRules(p);
    case TCapture(_, _, p) => FitHasRules(p);
    case TSeq(p1, p2) => FitHasRules(p1); FitHasRules(p2);
    case TChoice(p1, p2) => FitHasRules(p1); FitHasRules(p2);
    case TGrammar(rules) => forall k | 0 <= k < |rules| ensures GrammarsHaveRules(rules[k]) { FitHasRules(rules[k]); }
    case _ =>
  }

  lemma HeightFalls(g: seq<Tree>, t: Tree)
    ensures One(t) ==> Height(g, t.p) <= Height(g, t)
    ensures Two(t) ==> Height(g, t.p1) <= Height(g, t) && Height(g, t.p2) <= Height(g, t)
    ensures t.TCall? && t.rule < |g| ==> Height(g, g[t.rule]) <= Height(g, t)
    ensures t.TGrammar? && t.rules != [] ==> Height(t.rules, t.rules[0]) < Height(g, t)
  {
  }

  lemma NoRules(s: seq<Node>, k: nat, g: seq<Tree>, b: nat, m: Stage)
    requires Inside(s, k, g, b, m) && m.Pending?
    ensures g == []
  {
  }

  lemma ChildOne(s: seq<Node>, k: nat, g: seq<Tree>, b: nat, t: Tree, m: Stage)
    requires One(t) && Laid(s, k, t, m) && Inside(s, k, g, b, m)
    ensures Laid(s, k + 1, t.p, Shift(m, 1)) && Inside(s, k + 1, g, b, Shift(m, 1))
  {
    hide Laid, RulePositions, LaidRules;
    OneLaid(s, k, t, m);
  }

  lemma ChildTwo(s: seq<Node>, k: nat, g: seq<Tree>, b: nat, t: Tree, m: Stage)
    requires Two(t) && Laid(s, k, t, m) && Inside(s, k, g, b, m)
    ensures Laid(s, k + 1, t.p1, Shift(m, 1)) && Inside(s, k + 1, g, b, Shift(m, 1))
    ensures var d := 1 + Size(t.p1); Laid(s, k + d, t.p2, Shift(m, d)) && Inside(s, k + d, g, b, Shift(m, d))
  {
    hide Laid, RulePositions, LaidRules;
    TwoLaid(s, k, t, m);
  }

  lemma CallInside(s: seq<Node>, k: nat, g: seq<Tree>, b: nat, m: Stage, r: nat)
    requires Inside(s, k, g, b, m) && m.Fixed? && r < |m.pos|
    ensures Inside(s, b + m.pos[r] + 1, g, b, Fixed(m.pos[r] + 1, m.pos))
  {
    hide RulePositions, LaidRules;
  }

  /** 'nullable' returns on a pattern that is being built: its calls are open, and its grammars have been accepted. */
  lemma {:induction false} OpenCheckEnds(t: Tree, pred: Pred)
    requires Fit(t)
    ensures CheckEnds([], t, pred, DEPTH)
  {
    match t
    case TAnd(p) => OpenCheckEnds(p, pred);
    case TCapture(_, _, p) => OpenCheckEnds(p, pred);
    case TSeq(p1, p2) => OpenCheckEnds(p1, pred); OpenCheckEnds(p2, pred);
    case TChoice(p1, p2) => OpenCheckEnds(p1, pred); OpenCheckEnds(p2, pred);
    case TGrammar(rules) =>
      FirstRule(rules);
      CheckAuxEnds(rules, rules[0], pred, MAXRULES, false, DEPTH);
    case _ =>
  }
}
