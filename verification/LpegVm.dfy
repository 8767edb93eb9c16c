/** The matching machine of lpvm.c. */
module Vm {
  import opened Common
  import opened PegTree
  import opened Peg

  datatype Opcode =
    | IAny | IChar | ISet | ITestAny | ITestChar | ITestSet | ISpan | IBehind
    | IRet | IEnd | IChoice | IJmp | ICall | IOpenCall | ICommit | IPartialCommit | IBackCommit
    | IFailTwice | IFail | IFullCapture | IOpenCapture | ICloseCapture

  /** One element of a code array: an instruction, the offset or the character set that
      belongs to the instruction before it, further room taken by a character set, or room left
      for an offset not known yet. */
  datatype Slot = I(op: Opcode, aux: nat, key: nat) | Off(offset: int) | Buf(cs: Charset) | Fill | Hole

  /** Elements taken by an instruction with a 32-byte set. */
  const CHARSETINSTSIZE: nat := 9

  function SizeOf(op: Opcode): (n: nat)
    ensures n >= 1
  {
    match op
    case ISet => CHARSETINSTSIZE
    case ISpan => CHARSETINSTSIZE
    case ITestSet => CHARSETINSTSIZE + 1
    case _ => if HasOffset(op) then 2 else 1
  }

  predicate HasOffset(op: Opcode) {
    op in {ITestAny, ITestChar, ITestSet, IChoice, IJmp, ICall, IOpenCall, ICommit, IPartialCommit, IBackCommit}
  }

  /** Kind and length packed in the 'aux' field of capture instructions. */
  function JoinKindOff(kind: nat, off: nat): nat { kind + 16 * off }
  function GetKind(aux: nat): nat { aux % 16 }
  function GetOff(aux: nat): nat { aux / 16 % 16 }

  /** Entries of the backtrack stack: pending choices and return addresses. */
  datatype Entry = Choice(p: int, s: nat, caplevel: nat) | Return(p: int)
  datatype Stack = Empty | Push(top: Entry, rest: Stack)

  /** What 'match' returns: NULL, or the end position (with the capture list it leaves). */
  datatype Answer = GaveUp | Matched(j: nat, caps: seq<Cap>)

  /** Stuck: an assertion of lpvm.c would fail, the machine would leave the code, the entry IFailTwice pops is not a
      choice, a capture begins with an entry of kind Cclose, or ICloseCapture has no open capture to close. The last
      two are not checked by lpvm.c; see LooseStep. */
  datatype State = Run(pc: int, i: nat, caps: seq<Cap>, st: Stack) | Halt(r: Answer) | Stuck

  /** Address of the instruction IGiveup, which lies outside the code. */
  const GIVEUP: int := -1

  function Start(i: nat): State {
    Run(0, i, [], Push(Choice(GIVEUP, i, 0), Empty))
  }

  /** Failure: drop pending calls, then resume at the most recent choice. */
  function Backtrack(st: Stack, caps: seq<Cap>): (a: State)
    ensures !a.Halt?
  {
    match st
    case Empty => Stuck
    case Push(Return(_), rest) => Backtrack(rest, caps)
    case Push(Choice(p, s, l), rest) => if l <= |caps| then Run(p, s, caps[..l], rest) else Stuck
  }

  /** End of the longest run of characters of cs that starts at i. */
  function SpanEnd(s: seq<Byte>, i: nat, cs: Charset): (j: nat)
    requires i <= |s|
    ensures i <= j <= |s|
    decreases |s| - i
  {
    if i < |s| && s[i] in cs then SpanEnd(s, i + 1, cs) else i
  }

  predicate At(code: seq<Slot>, k: int) { 0 <= k < |code| }
  predicate IsOp(code: seq<Slot>, k: int, op: Opcode) { At(code, k) && code[k].I? && code[k].op == op }
  predicate OffAt(code: seq<Slot>, k: int) { At(code, k) && code[k].Off? }
  predicate BufAt(code: seq<Slot>, k: int) { At(code, k) && code[k].Buf? }

  predicate IsClose(c: Cap) { c.kind == CCLOSE }
  predicate IsOpen(c: Cap) { c.kind != CCLOSE && c.siz == 0 }

  /** Going back from entry k, over n more closes than opens, one finds an open that is not closed. */
  predicate FindsOpen(caps: seq<Cap>, k: nat, n: nat)
    requires k <= |caps|
  {
    && k > 0
    && if IsClose(caps[k - 1]) then FindsOpen(caps, k - 1, n + 1)
       else if IsOpen(caps[k - 1]) then n == 0 || FindsOpen(caps, k - 1, n - 1)
       else FindsOpen(caps, k - 1, n)
  }

  /** What lpvm.c relies on when it closes a capture. */
  predicate CanClose(caps: seq<Cap>, i: nat) {
    caps != [] && (caps[|caps| - 1].siz == 0 ==> caps[|caps| - 1].s <= i)
  }

  predicate Closable(caps: seq<Cap>, i: nat) {
    CanClose(caps, i) && FindsOpen(caps, |caps|, 0)
  }

  /** The capture list after ICloseCapture at subject position i: a capture still open at the end
      of the list becomes a full one if its length fits, else a close entry is added. */
  function CloseCapture(caps: seq<Cap>, i: nat, aux: nat, key: nat): seq<Cap>
    requires CanClose(caps, i)
  {
    var last := caps[|caps| - 1];
    if last.siz == 0 && i - last.s < UCHAR_MAX then
      caps[|caps| - 1 := last.(siz := i - last.s + 1)]
    else
      caps + [Cap(i, key, GetKind(aux), 1)]
  }

  /** The entry of IFullCapture at subject position i. */
  function FullEntry(i: nat, aux: nat, key: nat): Cap
    requires GetOff(aux) <= i
  {
    Cap(i - GetOff(aux), key, GetKind(aux), GetOff(aux) + 1)
  }

  /** One instruction. */
  function Exec(code: seq<Slot>, s: seq<Byte>, p: int, i: nat, caps: seq<Cap>, st: Stack): State
    requires At(code, p) && code[p].I? && i <= |s|
  {
    var I(op, aux, key) := code[p];
    if HasOffset(op) then
      if OffAt(code, p + 1) then ExecJump(code, s, op, aux, p, p + code[p + 1].offset, i, caps, st) else Stuck
    else
      match op
      case IEnd => if st.Push? && st.top.Choice? && st.rest == Empty then Halt(Matched(i, caps)) else Stuck
      case IRet => if st.Push? && st.top.Return? then Run(st.top.p, i, caps, st.rest) else Stuck
      case IAny => if i < |s| then Run(p + 1, i + 1, caps, st) else Backtrack(st, caps)
      case IChar => if i < |s| && s[i] == aux then Run(p + 1, i + 1, caps, st) else Backtrack(st, caps)
      case ISet =>
        if !BufAt(code, p + 1) then Stuck
        else if i < |s| && s[i] in code[p + 1].cs then Run(p + CHARSETINSTSIZE, i + 1, caps, st)
        else Backtrack(st, caps)
      case ISpan =>
        if !BufAt(code, p + 1) then Stuck
        else Run(p + CHARSETINSTSIZE, SpanEnd(s, i, code[p + 1].cs), caps, st)
      case IBehind => if aux > i then Backtrack(st, caps) else Run(p + 1, i - aux, caps, st)
      case IFailTwice => if st.Push? && st.top.Choice? then Backtrack(st.rest, caps) else Stuck
      case IFail => Backtrack(st, caps)
      case IFullCapture =>
        if GetOff(aux) > i || GetKind(aux) == CCLOSE then Stuck
        else Run(p + 1, i, caps + [FullEntry(i, aux, key)], st)
      case IOpenCapture => if GetKind(aux) == CCLOSE then Stuck else Run(p + 1, i,
          caps + [Cap(i, key, GetKind(aux), 0)], st)
      case ICloseCapture => if Closable(caps, i) then Run(p + 1, i, CloseCapture(caps, i, aux, key), st) else Stuck
  }

  /** An instruction with an offset, whose label is address l. */
  function ExecJump(code: seq<Slot>, s: seq<Byte>, op: Opcode, aux: nat, p: int, l: int,
                    i: nat, caps: seq<Cap>, st: Stack): State
    requires i <= |s| && HasOffset(op)
  {
    match op
    case ITestAny => Run(if i < |s| then p + 2 else l, i, caps, st)
    case ITestChar => Run(if i < |s| && s[i] == aux then p + 2 else l, i, caps, st)
    case ITestSet =>
      if !BufAt(code, p + 2) then Stuck
      else Run(if i < |s| && s[i] in code[p + 2].cs then p + 1 + CHARSETINSTSIZE else l, i, caps, st)
    case IJmp => Run(l, i, caps, st)
    case IChoice => Run(p + 2, i, caps, Push(Choice(l, i, |caps|), st))
    case ICall => Run(l, i, caps, Push(Return(p + 2), st))
    case IOpenCall => Stuck
    case ICommit => if st.Push? && st.top.Choice? then Run(l, i, caps, st.rest) else Stuck
    case IPartialCommit =>
      if st.Push? && st.top.Choice? then Run(l, i, caps, Push(Choice(st.top.p, i, |caps|), st.rest)) else Stuck
    case IBackCommit =>
      if st.Push? && st.top.Choice? && st.top.caplevel <= |caps| then
        Run(l, st.top.s, caps[..st.top.caplevel], st.rest)
      else Stuck
  }

  function Step(code: seq<Slot>, s: seq<Byte>, a: State): State {
    match a
    case Run(p, i, caps, st) =>
      if p == GIVEUP then if st == Empty then Halt(GaveUp) else Stuck
      else if At(code, p) && code[p].I? && i <= |s| then Exec(code, s, p, i, caps, st)
      else Stuck
    case _ => a
  }

  function Iter(code: seq<Slot>, s: seq<Byte>, a: State, n: nat): State
    decreases n
  {
    if n == 0 then a else Iter(code, s, Step(code, s, a), n - 1)
  }

  /** The machine as it is: it adds entries of any kind, and closes captures without looking for the open one. */
  function LooseStep(code: seq<Slot>, s: seq<Byte>, a: State): State {
    if a.Run? && a.pc != GIVEUP && At(code, a.pc) && code[a.pc].I? && a.i <= |s| then
      var I(op, aux, key) := code[a.pc];
      if op == ICloseCapture && CanClose(a.caps, a.i) then Run(a.pc + 1, a.i, CloseCapture(a.caps, a.i, aux, key), a.st)
      else if op == IFullCapture && GetOff(aux) <= a.i then Run(a.pc + 1, a.i, a.caps + [FullEntry(a.i, aux, key)],
          a.st)
      else if op == IOpenCapture then Run(a.pc + 1, a.i, a.caps + [Cap(a.i, key, GetKind(aux), 0)], a.st)
      else Step(code, s, a)
    else Step(code, s, a)
  }

  function LooseIter(code: seq<Slot>, s: seq<Byte>, a: State, n: nat): State
    decreases n
  {
    if n == 0 then a else LooseIter(code, s, LooseStep(code, s, a), n - 1)
  }

  /** As long as the check does not fail, it makes no difference. */
  lemma {:induction false} LooseSame(code: seq<Slot>, s: seq<Byte>, a: State, n: nat)
    requires !Iter(code, s, a, n).Stuck?
    ensures LooseIter(code, s, a, n) == Iter(code, s, a, n)
    decreases n
  {
    hide FindsOpen;
    if n > 0 {
      var b := Step(code, s, a);
      if b.Stuck? { IterFixed(code, s, b, n - 1); }
      LooseSame(code, s, b, n - 1);
    }
  }

  /** The machine gets from a to b. */
  ghost predicate Reaches(code: seq<Slot>, s: seq<Byte>, a: State, b: State) {
    exists n: nat :: Iter(code, s, a, n) == b
  }

  /** Started at position i, the machine halts with answer r. */
  ghost predicate Answers(code: seq<Slot>, s: seq<Byte>, i: nat, r: Answer) {
    Reaches(code, s, Start(i), Halt(r))
  }

  lemma IterAdd(code: seq<Slot>, s: seq<Byte>, a: State, n: nat, m: nat)
    ensures Iter(code, s, a, n + m) == Iter(code, s, Iter(code, s, a, n), m)
    decreases n
  {
    if n > 0 { IterAdd(code, s, Step(code, s, a), n - 1, m); }
  }

  lemma Reach0(code: seq<Slot>, s: seq<Byte>, a: State)
    ensures Reaches(code, s, a, a)
  {
    assert Iter(code, s, a, 0) == a;
  }

  lemma Reach1(code: seq<Slot>, s: seq<Byte>, a: State)
    ensures Reaches(code, s, a, Step(code, s, a))
  {
    assert Iter(code, s, a, 1) == Iter(code, s, Step(code, s, a), 0);
  }

  lemma ReachTrans(code: seq<Slot>, s: seq<Byte>, a: State, b: State, c: State)
    requires Reaches(code, s, a, b) && Reaches(code, s, b, c)
    ensures Reaches(code, s, a, c)
  {
    var n: nat :| Iter(code, s, a, n) == b;
    var m: nat :| Iter(code, s, b, m) == c;
    IterAdd(code, s, a, n, m);
  }

  lemma IterFixed(code: seq<Slot>, s: seq<Byte>, a: State, n: nat)
    requires !a.Run?
    ensures Iter(code, s, a, n) == a
  {
  }

  /** A run has one answer only. */
  lemma AnswerUnique(code: seq<Slot>, s: seq<Byte>, a: State, r: Answer, r': Answer)
    requires Reaches(code, s, a, Halt(r)) && Reaches(code, s, a, Halt(r'))
    ensures r == r'
  {
    var n: nat :| Iter(code, s, a, n) == Halt(r);
    var m: nat :| Iter(code, s, a, m) == Halt(r');
    IterAdd(code, s, a, n, m);
    IterAdd(code, s, a, m, n);
    IterFixed(code, s, Halt(r), m);
    IterFixed(code, s, Halt(r'), n);
  }

  /** The interpreter loop. 'n' witnesses that the run ends; every assertion of the C loop holds on the way. */
  method Match(code: seq<Slot>, s: seq<Byte>, init: nat, ghost n: nat) returns (r: Answer)
    requires Iter(code, s, Start(init), n).Halt?
    ensures Halt(r) == Iter(code, s, Start(init), n)
  {
    var p, i, caps, stack := 0, init, [], Push(Choice(GIVEUP, init, 0), Empty);
    ghost var k := n;
    while true
      invariant Iter(code, s, Run(p, i, caps, stack), k) == Iter(code, s, Start(init), n)
      decreases k
    {
      ghost var now := Run(p, i, caps, stack);
      assert k > 0;
      ghost var next := Step(code, s, now);
      assert next != Stuck by { if next == Stuck { IterFixed(code, s, Stuck, k - 1); } }
      assert Iter(code, s, now, k) == Iter(code, s, next, k - 1);
      k := k - 1;
      if p == GIVEUP {
        IterFixed(code, s, next, k);
        return GaveUp;
      }
      var op, aux, key := code[p].op, code[p].aux, code[p].key;
      var target := if HasOffset(op) then p + code[p + 1].offset else 0;
      var failed := false;
      match op {
        case IEnd =>
          IterFixed(code, s, next, k);
          return Matched(i, caps);
        case IRet =>
          p, stack := stack.top.p, stack.rest;
        case IAny =>
          if i < |s| { p, i := p + 1, i + 1; } else { failed := true; }
        case ITestAny =>
          p := if i < |s| then p + 2 else target;
        case IChar =>
          if i < |s| && s[i] == aux { p, i := p + 1, i + 1; } else { failed := true; }
        case ITestChar =>
          p := if i < |s| && s[i] == aux then p + 2 else target;
        case ISet =>
          if i < |s| && s[i] in code[p + 1].cs { p, i := p + CHARSETINSTSIZE, i + 1; } else { failed := true; }
        case ITestSet =>
          p := if i < |s| && s[i] in code[p + 2].cs then p + 1 + CHARSETINSTSIZE else target;
        case IBehind =>
          if aux > i { failed := true; } else { p, i := p + 1, i - aux; }
        case ISpan =>
          i := Span(s, i, code[p + 1].cs);
          p := p + CHARSETINSTSIZE;
        case IJmp =>
          p := target;
        case IChoice =>
          stack := Push(Choice(target, i, |caps|), stack);
          p := p + 2;
        case ICall =>
          stack := Push(Return(p + 2), stack);
          p := target;
        case ICommit =>
          p, stack := target, stack.rest;
        case IPartialCommit =>
          p, stack := target, Push(Choice(stack.top.p, i, |caps|), stack.rest);
        case IBackCommit =>
          p, i, caps, stack := target, stack.top.s, caps[..stack.top.caplevel], stack.rest;
        case IFailTwice =>
          stack := stack.rest;
          failed := true;
        case IFail =>
          failed := true;
        case IFullCapture =>
          caps := caps + [FullEntry(i, aux, key)];
          p := p + 1;
        case IOpenCapture =>
          caps := caps + [Cap(i, key, GetKind(aux), 0)];
          p := p + 1;
        case ICloseCapture =>
          caps := CloseCapture(caps, i, aux, key);
          p := p + 1;
      }
      if failed {
        p, i, caps, stack := PopChoice(stack, caps);
      }
      assert Run(p, i, caps, stack) == next;
    }
  }

  /** The loop of ISpan. */
  method Span(s: seq<Byte>, i: nat, cs: Charset) returns (j: nat)
    requires i <= |s|
    ensures j == SpanEnd(s, i, cs)
  {
    j := i;
    while j < |s| && s[j] in cs
      invariant i <= j <= |s|
      invariant SpanEnd(s, i, cs) == SpanEnd(s, j, cs)
    {
      j := j + 1;
    }
  }

  /** The loop at target 'fail'. */
  method PopChoice(st: Stack, caps: seq<Cap>) returns (p: int, i: nat, caps': seq<Cap>, st': Stack)
    requires Backtrack(st, caps).Run?
    ensures Run(p, i, caps', st') == Backtrack(st, caps)
  {
    st' := st;
    while st'.top.Return?
      invariant Backtrack(st', caps) == Backtrack(st, caps)
      invariant st'.Push?
      decreases st'
    {
      st' := st'.rest;
    }
    p, i, caps' := st'.top.p, st'.top.s, caps[..st'.top.caplevel];
    st' := st'.rest;
  }
}
