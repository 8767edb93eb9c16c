/** Compiling and matching, end to end. */
module Lpeg {
  import opened Common
  import opened PegTree
  import opened Peg
  import opened Analysis
  import opened Vm
  import opened Layout
  import opened Code
  import opened Simulation
  import opened TailCalls
  import opened Peephole
  import opened GrammarCheck
  import opened Compiler
  import opened Captures

  /** Compiled code answers as the semantics does, wherever the semantics has an answer. */
  lemma CompiledAnswers(t: Tree, s: seq<Byte>, i: nat, n: nat)
    requires Wf([], t) && OptSafe([], t, false, FULL) && i <= |s|
    requires Eval([], t, s, i, n) != Out
    ensures Answers(Compiled(t), s, i, AnswerOf(Eval([], t, s, i, n)))
  {
    hide Answers, Program, PeepFrom, Eval, Wf, OptSafe;
    var r := AnswerOf(Eval([], t, s, i, n));
    ProgramCorrect(t, s, i, n);
    TailProgram(t, s, i, r);
    PeepAnswers(Program(t, true), 0, s, i, r);
  }

  /** A pattern the library accepts and the code generator handles. */
  ghost predicate Good(t: Tree) {
    Checked(t) && Wf([], t) && OptSafe([], t, false, FULL) && SearchesEnd([], t)
  }

  /** For every pattern, subject and starting position: the semantics has an answer, and the machine,
      running the compiled pattern, halts with that answer and no other. */
  lemma MatchCorrect(t: Tree, s: seq<Byte>, i: nat) returns (n: nat)
    requires Good(t) && i <= |s|
    ensures Eval([], t, s, i, n) != Out
    ensures forall r :: Answers(Compiled(t), s, i, r) <==> r == AnswerOf(Eval([], t, s, i, n))
  {
    hide Compiled, Eval;
    n := MatchEnds(t, s, i);
    var a := AnswerOf(Eval([], t, s, i, n));
    CompiledAnswers(t, s, i, n);
    forall r | Answers(Compiled(t), s, i, r) ensures r == a {
      AnswerUnique(Compiled(t), s, Start(i), r, a);
    }
  }

  /** No assertion of the machine fails on the way: returns pop calls, commits act on choices, and at the end only the
      entry to give up is left. */
  lemma NeverStuck(t: Tree, s: seq<Byte>, i: nat, k: nat)
    requires Good(t) && i <= |s|
    ensures !Iter(Compiled(t), s, Start(i), k).Stuck?
  {
    hide Compiled, Eval, Step;
    var m := MatchCorrect(t, s, i);
    var a := AnswerOf(Eval([], t, s, i, m));
    assert Answers(Compiled(t), s, i, a);
    var n: nat :| Iter(Compiled(t), s, Start(i), n) == Halt(a);
    var state := Iter(Compiled(t), s, Start(i), k);
    if k <= n {
      IterAdd(Compiled(t), s, Start(i), k, n - k);
      if state.Stuck? { IterFixed(Compiled(t), s, state, n - k); }
    } else {
      IterAdd(Compiled(t), s, Start(i), n, k - n);
      IterFixed(Compiled(t), s, Halt(a), k - n);
    }
  }

  /** The two checks that lpvm.c does not make never fail, so the machine without them runs alike. */
  lemma SameMachine(t: Tree, s: seq<Byte>, i: nat, k: nat)
    requires Good(t) && i <= |s|
    ensures LooseIter(Compiled(t), s, Start(i), k) == Iter(Compiled(t), s, Start(i), k)
  {
    hide Compiled, Good;
    NeverStuck(t, s, i, k);
    LooseSame(Compiled(t), s, Start(i), k);
  }

  /** In every state the machine reaches, every close in the capture list has its open before it, and so it is in
      every list that a pending choice would go back to. */
  lemma CapturesNested(t: Tree, s: seq<Byte>, i: nat, k: nat)
    requires Good(t) && i <= |s|
    ensures var a := LooseIter(Compiled(t), s, Start(i), k);
      a.Run? ==> Bracketed(a.caps) && Saved(a.st, |a.caps|) && forall l :: 0 <= l <= |a.caps| ==> Bracketed(a.caps[..l])
  {
    hide Compiled, Good, Step;
    SameMachine(t, s, i, k);
    assert Level([], 0) == 0;
    RunNested(Compiled(t), s, Start(i), k);
    var a := Iter(Compiled(t), s, Start(i), k);
    if a.Run? {
      forall l | 0 <= l <= |a.caps| ensures Bracketed(a.caps[..l]) {
        BracketedPrefix(a.caps, l);
      }
    }
  }

  /** The captures the machine hands over are well bracketed, so every open entry has a partner. */
  lemma CapturesBalanced(t: Tree, s: seq<Byte>, i: nat, j: nat, caps: seq<Cap>)
    requires Good(t) && i <= |s| && Answers(Compiled(t), s, i, Matched(j, caps))
    ensures Balanced(caps)
  {
    hide Compiled, Eval, Answers;
    var n := MatchCorrect(t, s, i);
    EvalBalanced([], t, s, i, n);
  }

  /** All bounds that give an answer give the same one. */
  lemma EvalSame(t: Tree, s: seq<Byte>, i: nat, n: nat, m: nat)
    requires i <= |s| && Eval([], t, s, i, n) != Out && Eval([], t, s, i, m) != Out
    ensures Eval([], t, s, i, n) == Eval([], t, s, i, m)
  {
    if n <= m { EvalMono([], t, s, i, n, m); } else { EvalMono([], t, s, i, m, n); }
  }
}
