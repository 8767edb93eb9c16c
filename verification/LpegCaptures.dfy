/** The capture list (lpcap.c): opens and closes of the list a match leaves are properly nested, and the loops
    that look for the partner of an entry find it. */
module Captures {
  import opened Common
  import opened PegTree
  import opened Peg
  import opened Analysis
  import opened Vm

  function Weight(c: Cap): int {
    if IsClose(c) then -1 else if IsOpen(c) then 1 else 0
  }

  /** Captures open before entry k. */
  function Level(caps: seq<Cap>, k: nat): int
    requires k <= |caps|
  {
    if k == 0 then 0 else Level(caps, k - 1) + Weight(caps[k - 1])
  }

  /** Every close has an open before it. */
  ghost predicate Bracketed(caps: seq<Cap>) {
    forall k :: 0 <= k <= |caps| ==> Level(caps, k) >= 0
  }

  /** And every open has a close after it. */
  ghost predicate Balanced(caps: seq<Cap>) {
    Bracketed(caps) && Level(caps, |caps|) == 0
  }

  lemma {:induction false} LevelLeft(x: seq<Cap>, y: seq<Cap>, k: nat)
    requires k <= |x|
    ensures Level(x + y, k) == Level(x, k)
  {
    if k > 0 { LevelLeft(x, y, k - 1); }
  }

  lemma {:induction false} LevelRight(x: seq<Cap>, y: seq<Cap>, k: nat)
    requires k <= |y|
    ensures Level(x + y, |x| + k) == Level(x, |x|) + Level(y, k)
  {
    if k == 0 { LevelLeft(x, y, |x|); } else { LevelRight(x, y, k - 1); }
  }

  lemma BalancedAdd(x: seq<Cap>, y: seq<Cap>)
    requires Balanced(x) && Balanced(y)
    ensures Balanced(x + y)
  {
    LevelRight(x, y, |y|);
    forall k | 0 <= k <= |x + y| ensures Level(x + y, k) >= 0 {
      if k <= |x| { LevelLeft(x, y, k); } else { LevelRight(x, y, k - |x|); }
    }
  }

  lemma BalancedEnclose(kind: nat, key: nat, i: nat, j: nat, inner: seq<Cap>)
    requires i <= j && Balanced(inner) && kind != CCLOSE
    ensures Balanced(Enclose(kind, key, i, j, inner))
  {
    var all := Enclose(kind, key, i, j, inner);
    if inner == [] && j - i < UCHAR_MAX {
      assert Level(all, 1) == Level(all, 0) + Weight(all[0]);
    } else {
      var open, close := [Cap(i, key, kind, 0)], [Cap(j, 0, CCLOSE, 1)];
      assert Level(open, 1) == Level(open, 0) + Weight(open[0]);
      assert Level(close, 1) == Level(close, 0) + Weight(close[0]);
      LevelRight(open, inner, |inner|);
      LevelRight(open + inner, close, 1);
      forall k | 0 <= k <= |all| ensures Level(all, k) >= 0 {
        if k <= |open + inner| {
          LevelLeft(open + inner, close, k);
          if k >= 1 { LevelRight(open, inner, k - 1); }
        }
      }
    }
  }

  /** The entries a match leaves are properly nested. */
  lemma {:induction false} EvalBalanced(g: seq<Tree>, t: Tree, s: seq<Byte>, i: nat, n: nat)
    requires i <= |s| && Wf(g, t) && forall k :: 0 <= k < |g| ==> Wf(g, g[k])
    ensures Eval(g, t, s, i, n).Yes? ==> Balanced(Eval(g, t, s, i, n).caps)
    decreases n, t, |s| - i
  {
    hide HasCaptures, FixedLenX, CheckAux;
    assert Balanced([]);
    match t
    case TRep(p) =>
      EvalBalanced(g, p, s, i, n);
      var r := Eval(g, p, s, i, n);
      if r.Yes? && r.j > i {
        EvalBalanced(g, t, s, r.j, n);
        var r2 := Eval(g, t, s, r.j, n);
        if r2.Yes? { BalancedAdd(r.caps, r2.caps); }
      }
    case TSeq(p1, p2) =>
      EvalBalanced(g, p1, s, i, n);
      var r := Eval(g, p1, s, i, n);
      if r.Yes? {
        EvalBalanced(g, p2, s, r.j, n);
        var r2 := Eval(g, p2, s, r.j, n);
        if r2.Yes? { BalancedAdd(r.caps, r2.caps); }
      }
    case TChoice(p1, p2) =>
      EvalBalanced(g, p1, s, i, n);
      EvalBalanced(g, p2, s, i, n);
    case TCapture(kind, key, p) =>
      EvalBalanced(g, p, s, i, n);
      var r := Eval(g, p, s, i, n);
      if r.Yes? { BalancedEnclose(kind, key, i, r.j, r.caps); }
    case TCall(k) => if n > 0 { EvalBalanced(g, g[k], s, i, n - 1); }
    case TGrammar(rules) => EvalBalanced(rules, rules[0], s, i, n);
    case _ =>
  }

  /** The open at o and the close at c belong together: what lies between them is nested deeper. */
  ghost predicate Partners(caps: seq<Cap>, o: nat, c: nat) {
    && o < c < |caps| && IsOpen(caps[o]) && IsClose(caps[c])
    && Level(caps, c) == Level(caps, o) + 1
    && forall k :: o < k <= c ==> Level(caps, k) > Level(caps, o)
  }

  /** Partners determine each other. */
  lemma PartnersUnique(caps: seq<Cap>, o: nat, c: nat, o': nat, c': nat)
    requires Partners(caps, o, c) && Partners(caps, o', c')
    ensures o == o' <==> c == c'
  {
    assert Level(caps, c + 1) == Level(caps, c) - 1;
    assert Level(caps, c' + 1) == Level(caps, c') - 1;
  }

  /** 'findopen': goes back from a close entry to the open it closes. */
  method FindOpen(caps: seq<Cap>, c: nat) returns (o: nat)
    requires Bracketed(caps) && c < |caps| && IsClose(caps[c])
    ensures Partners(caps, o, c)
  {
    var n := 0;
    var k := c;
    assert Level(caps, c + 1) == Level(caps, c) - 1;
    while true
      invariant 0 <= k <= c && n >= 0
      invariant Level(caps, k) == Level(caps, c) + n
      invariant forall j :: k <= j <= c ==> Level(caps, j) >= Level(caps, c)
      decreases k
    {
      assert k > 0;
      k := k - 1;
      assert Level(caps, k + 1) == Level(caps, k) + Weight(caps[k]);
      if IsClose(caps[k]) {
        n := n + 1;
      } else if IsOpen(caps[k]) {
        if n == 0 { return k; }
        n := n - 1;
      }
    }
  }

  /** 'nextcap': the entry after a whole capture. */
  method NextCap(caps: seq<Cap>, o: nat) returns (next: nat)
    requires Balanced(caps) && o < |caps| && !IsClose(caps[o])
    ensures !IsOpen(caps[o]) ==> next == o + 1
    ensures IsOpen(caps[o]) ==> next > 0 && Partners(caps, o, next - 1)
    ensures next <= |caps| && Level(caps, next) == Level(caps, o)
  {
    var k := o;
    assert Level(caps, o + 1) == Level(caps, o) + Weight(caps[o]);
    if IsOpen(caps[o]) {
      var n := 0;
      while true
        invariant o <= k < |caps| && n >= 0
        invariant Level(caps, k + 1) == Level(caps, o) + n + 1
        invariant forall j :: o < j <= k + 1 ==> Level(caps, j) > Level(caps, o)
        decreases |caps| - k
      {
        assert k + 1 < |caps|;
        k := k + 1;
        assert Level(caps, k + 1) == Level(caps, k) + Weight(caps[k]);
        if IsClose(caps[k]) {
          if n == 0 { break; }
          n := n - 1;
        } else if IsOpen(caps[k]) {
          n := n + 1;
        }
      }
    }
    next := k + 1;
  }

  // ----- the list while the machine runs -----

  /** Going back over balanced entries makes no difference. */
  lemma {:induction false} BackOver(caps: seq<Cap>, inner: seq<Cap>, k: nat, n: nat)
    requires Bracketed(inner) && k <= |inner|
    ensures FindsOpen(caps + inner, |caps| + k, n + Level(inner, k)) == FindsOpen(caps, |caps|, n)
    decreases k
  {
    if k == 0 {
      FindsInPrefix(caps, inner, |caps|, n);
    } else {
      BackOver(caps, inner, k - 1, n);
      assert (caps + inner)[|caps| + k - 1] == inner[k - 1];
    }
  }

  lemma {:induction false} FindsInPrefix(caps: seq<Cap>, more: seq<Cap>, k: nat, n: nat)
    requires k <= |caps|
    ensures FindsOpen(caps + more, k, n) == FindsOpen(caps, k, n)
    decreases k
  {
    if k > 0 {
      FindsInPrefix(caps, more, k - 1, n + 1);
      FindsInPrefix(caps, more, k - 1, n);
      if n > 0 { FindsInPrefix(caps, more, k - 1, n - 1); }
    }
  }

  /** An open followed by balanced entries can be closed. */
  lemma OpenIsFound(caps: seq<Cap>, open: Cap, inner: seq<Cap>)
    requires IsOpen(open) && Balanced(inner)
    ensures var all := caps + [open] + inner; FindsOpen(all, |all|, 0)
  {
    BackOver(caps + [open], inner, |inner|, 0);
    assert (caps + [open])[|caps + [open]| - 1] == open;
  }

  lemma {:induction false} OpenRaises(caps: seq<Cap>, k: nat, n: nat)
    requires Bracketed(caps) && k <= |caps| && FindsOpen(caps, k, n)
    ensures Level(caps, k) > n
    decreases k
  {
    if IsClose(caps[k - 1]) {
      OpenRaises(caps, k - 1, n + 1);
    } else if IsOpen(caps[k - 1]) {
      if n > 0 { OpenRaises(caps, k - 1, n - 1); }
    } else {
      OpenRaises(caps, k - 1, n);
    }
  }

  /** The capture lists saved in the choices of the stack are prefixes of one another and of the first n entries. */
  ghost predicate Saved(st: Stack, n: nat) {
    match st
    case Empty => true
    case Push(Return(_), rest) => Saved(rest, n)
    case Push(Choice(_, _, l), rest) => l <= n && Saved(rest, l)
  }

  lemma {:induction false} SavedMore(st: Stack, n: nat, m: nat)
    requires Saved(st, n) && n <= m
    ensures Saved(st, m)
  {
    if st.Push? && st.top.Return? { SavedMore(st.rest, n, m); }
  }

  /** Every close has its open, in the list and in every saved one. */
  ghost predicate Nested(a: State) {
    a.Run? ==> Bracketed(a.caps) && Saved(a.st, |a.caps|)
  }

  lemma BracketedPrefix(caps: seq<Cap>, l: nat)
    requires Bracketed(caps) && l <= |caps|
    ensures Bracketed(caps[..l])
  {
    forall k | 0 <= k <= l ensures Level(caps[..l], k) >= 0 {
      LevelLeft(caps[..l], caps[l..], k);
      assert caps[..l] + caps[l..] == caps;
    }
  }

  lemma BracketedAdd(caps: seq<Cap>, c: Cap)
    requires Bracketed(caps) && Level(caps, |caps|) + Weight(c) >= 0
    ensures Bracketed(caps + [c])
  {
    var all := caps + [c];
    LevelLeft(caps, [c], |caps|);
    forall k | 0 <= k <= |all| ensures Level(all, k) >= 0 {
      if k <= |caps| { LevelLeft(caps, [c], k); }
      else { assert Level(all, k) == Level(all, |caps|) + Weight(all[|caps|]); }
    }
  }

  lemma {:induction false} BacktrackNested(st: Stack, caps: seq<Cap>)
    requires Bracketed(caps) && Saved(st, |caps|)
    ensures Nested(Backtrack(st, caps))
  {
    match st
    case Empty =>
    case Push(Return(_), rest) => BacktrackNested(rest, caps);
    case Push(Choice(_, _, l), rest) => BracketedPrefix(caps, l);
  }

  lemma CloseNested(caps: seq<Cap>, i: nat, aux: nat, key: nat)
    requires Bracketed(caps) && Closable(caps, i)
    ensures Bracketed(CloseCapture(caps, i, aux, key)) && |CloseCapture(caps, i, aux, key)| >= |caps|
  {
    OpenRaises(caps, |caps|, 0);
    var n := |caps| - 1;
    var last := caps[n];
    if last.siz == 0 && i - last.s < UCHAR_MAX {
      BracketedPrefix(caps, n);
      var closed := last.(siz := i - last.s + 1);
      assert Level(caps, |caps|) == Level(caps, n) + Weight(last);
      LevelLeft(caps[..n], caps[n..], n);
      assert caps[..n] + caps[n..] == caps;
      BracketedAdd(caps[..n], closed);
      assert CloseCapture(caps, i, aux, key) == caps[..n] + [closed];
    } else {
      BracketedAdd(caps, Cap(i, key, GetKind(aux), 1));
    }
  }

  /** Every instruction keeps the lists well bracketed, whatever the code. */
  lemma StepNested(code: seq<Slot>, s: seq<Byte>, a: State)
    requires Nested(a)
    ensures Nested(Step(code, s, a))
  {
    hide Bracketed, Backtrack, Closable, CloseCapture;
    if a.Run? && a.pc != GIVEUP && At(code, a.pc) && code[a.pc].I? && a.i <= |s| {
      var Run(p, i, caps, st) := a;
      BacktrackNested(st, caps);
      var op, aux, key := code[p].op, code[p].aux, code[p].key;
      if HasOffset(op) {
        if OffAt(code, p + 1) { JumpNested(code, s, op, aux, p, p + code[p + 1].offset, i, caps, st); }
      } else if op == IFullCapture {
        if GetOff(aux) <= i && GetKind(aux) != CCLOSE { OpenNested(caps, st, p + 1, i, FullEntry(i, aux, key)); }
      } else if op == IOpenCapture {
        if GetKind(aux) != CCLOSE { OpenNested(caps, st, p + 1, i, Cap(i, key, GetKind(aux), 0)); }
      } else if op == ICloseCapture {
        CloseKeeps(caps, st, p + 1, i, aux, key);
      } else if op == IFailTwice && st.Push? && st.top.Choice? {
        SavedMore(st.rest, st.top.caplevel, |caps|);
        BacktrackNested(st.rest, caps);
      }
    }
  }

  lemma OpenNested(caps: seq<Cap>, st: Stack, p: int, i: nat, c: Cap)
    requires Bracketed(caps) && Saved(st, |caps|) && !IsClose(c)
    ensures Nested(Run(p, i, caps + [c], st))
  {
    hide Bracketed;
    BracketedMeans(caps);
    BracketedAdd(caps, c);
    SavedMore(st, |caps|, |caps| + 1);
  }

  lemma CloseKeeps(caps: seq<Cap>, st: Stack, p: int, i: nat, aux: nat, key: nat)
    requires Bracketed(caps) && Saved(st, |caps|)
    ensures Closable(caps, i) ==> Nested(Run(p, i, CloseCapture(caps, i, aux, key), st))
  {
    hide FindsOpen, Bracketed, CloseCapture;
    if Closable(caps, i) {
      CloseNested(caps, i, aux, key);
      SavedMore(st, |caps|, |CloseCapture(caps, i, aux, key)|);
    }
  }

  lemma BracketedMeans(caps: seq<Cap>)
    requires Bracketed(caps)
    ensures Level(caps, |caps|) >= 0
  {
  }

  lemma JumpNested(code: seq<Slot>, s: seq<Byte>, op: Opcode, aux: nat, p: int, l: int, i: nat, caps: seq<Cap>,
                   st: Stack)
    requires i <= |s| && HasOffset(op) && Bracketed(caps) && Saved(st, |caps|)
    ensures Nested(ExecJump(code, s, op, aux, p, l, i, caps, st))
  {
    hide Bracketed;
    if st.Push? && st.top.Choice? {
      SavedMore(st.rest, st.top.caplevel, |caps|);
      BracketedPrefix(caps, st.top.caplevel);
    }
  }

  lemma {:induction false} RunNested(code: seq<Slot>, s: seq<Byte>, a: State, n: nat)
    requires Nested(a)
    ensures Nested(Iter(code, s, a, n))
    decreases n
  {
    if n > 0 {
      StepNested(code, s, a);
      RunNested(code, s, Step(code, s, a), n - 1);
    }
  }
}
