/** Pattern trees of LPeg (lptree.h) and the limits of lptypes.h. */
module PegTree {
  import opened Common

  /** A set of subject bytes; the C code stores it as a 32-byte bitmap (see module CharsetBits). */
  type Charset = set<Byte>

  /** 'fullset' of lpcode.c. */
  const FULL: Charset := set c: Byte | 0 <= c < 256

  /** Maximum number of rules in a grammar. */
  const MAXRULES: nat := 1000
  /** Maximum number of bytes to look behind. */
  const MAXBEHIND: nat := 255
  /** Largest length a single full-capture instruction can hold. */
  const MAXOFF: nat := 15
  const UCHAR_MAX: nat := 255
  /** Rule numbers are kept in the one-byte field 'cap' of rule nodes. */
  const RULENUMBERS: nat := UCHAR_MAX + 1

  /** Capture kind that closes an open capture (CapKind in lpcap.h). */
  const CCLOSE: nat := 0

  /** A tree whose calls refer, by number, to the rules of the innermost enclosing grammar. */
  datatype Tree =
    | TChar(c: Byte)
    | TSet(cs: Charset)
    | TAny
    | TTrue
    | TFalse
    | TRep(p: Tree)
    | TSeq(p1: Tree, p2: Tree)
    | TChoice(p1: Tree, p2: Tree)
    | TNot(p: Tree)
    | TAnd(p: Tree)
    | TBehind(n: nat, p: Tree)
    | TCapture(kind: nat, key: nat, p: Tree)
    | TCall(rule: nat)
    | TGrammar(rules: seq<Tree>)

  /** 'char' patterns: those 'tocharset' converts into a set. */
  predicate IsCharset(t: Tree) {
    t.TChar? || t.TSet? || t.TAny?
  }

  function ToCharset(t: Tree): Charset
    requires IsCharset(t)
  {
    match t
    case TChar(c) => {c}
    case TSet(cs) => cs
    case TAny => FULL
  }
}

/** Big-step semantics of parsing expression grammars, with the captures each match leaves behind. */
module Peg {
  import opened Common
  import opened PegTree

  /** An entry of the capture list: 'siz' is 0 for an open capture, length + 1 for a full one. */
  datatype Cap = Cap(s: nat, idx: nat, kind: nat, siz: nat)

  /** No(): the pattern fails. Yes(j, caps): it matches up to j. Out: no answer within the given call depth. */
  datatype Res = Out | No | Yes(j: nat, caps: seq<Cap>)

  /** The entries a capture of s[i..j] contributes around the entries of its body. */
  function Enclose(kind: nat, key: nat, i: nat, j: nat, inner: seq<Cap>): seq<Cap>
    requires i <= j
  {
    if inner == [] && j - i < UCHAR_MAX then [Cap(i, key, kind, j - i + 1)]
    else [Cap(i, key, kind, 0)] + inner + [Cap(j, 0, CCLOSE, 1)]
  }

  /** Matches t at s[i..], with at most n nested rule calls. */
  function Eval(g: seq<Tree>, t: Tree, s: seq<Byte>, i: nat, n: nat): (r: Res)
    requires i <= |s|
    ensures r.Yes? ==> i <= r.j <= |s|
    decreases n, t, |s| - i
  {
    match t
    case TChar(c) => if i < |s| && s[i] == c then Yes(i + 1, []) else No
    case TSet(cs) => if i < |s| && s[i] in cs then Yes(i + 1, []) else No
    case TAny => if i < |s| then Yes(i + 1, []) else No
    case TTrue => Yes(i, [])
    case TFalse => No
    case TRep(p) => (
      match Eval(g, p, s, i, n)
      case Out => Out
      case No => Yes(i, [])
      case Yes(j, c1) =>
        if j == i then Out else
        match Eval(g, t, s, j, n)
        case Yes(k, c2) => Yes(k, c1 + c2)
        case r => r
      )
    case TSeq(p1, p2) => (
      match Eval(g, p1, s, i, n)
      case Yes(j, c1) => (
        match Eval(g, p2, s, j, n)
        case Yes(k, c2) => Yes(k, c1 + c2)
        case r => r
        )
      case r => r
      )
    case TChoice(p1, p2) => (
      match Eval(g, p1, s, i, n)
      case No => Eval(g, p2, s, i, n)
      case r => r
      )
    case TNot(p) => (
      match Eval(g, p, s, i, n)
      case Out => Out
      case No => Yes(i, [])
      case Yes(_, _) => No
      )
    case TAnd(p) => (
      match Eval(g, p, s, i, n)
      case Yes(_, _) => Yes(i, [])
      case r => r
      )
    case TBehind(m, p) =>
      if i < m then No else (
        match Eval(g, p, s, i - m, n)
        case Yes(j, _) => if j == i then Yes(i, []) else No
        case r => r
        )
    case TCapture(kind, key, p) => (
      match Eval(g, p, s, i, n)
      case Yes(j, c) => Yes(j, Enclose(kind, key, i, j, c))
      case r => r
      )
    case TCall(k) =>
      if n == 0 || k >= |g| then Out else Eval(g, g[k], s, i, n - 1)
    case TGrammar(rules) =>
      if rules == [] then Out else Eval(rules, rules[0], s, i, n)
  }

  /** An answer does not change when deeper calls are allowed. */
  lemma {:induction false} EvalMono(g: seq<Tree>, t: Tree, s: seq<Byte>, i: nat, n: nat, m: nat)
    requires i <= |s| && n <= m
    requires Eval(g, t, s, i, n) != Out
    ensures Eval(g, t, s, i, m) == Eval(g, t, s, i, n)
    decreases n, t, |s| - i
  {
    match t
    case TRep(p) =>
      EvalMono(g, p, s, i, n, m);
      var r := Eval(g, p, s, i, n);
      if r.Yes? && r.j > i { EvalMono(g, t, s, r.j, n, m); }
    case TSeq(p1, p2) =>
      EvalMono(g, p1, s, i, n, m);
      var r := Eval(g, p1, s, i, n);
      if r.Yes? { EvalMono(g, p2, s, r.j, n, m); }
    case TChoice(p1, p2) =>
      EvalMono(g, p1, s, i, n, m);
      if Eval(g, p1, s, i, n) == No { EvalMono(g, p2, s, i, n, m); }
    case TNot(p) => EvalMono(g, p, s, i, n, m);
    case TAnd(p) => EvalMono(g, p, s, i, n, m);
    case TBehind(b, p) => if i >= b { EvalMono(g, p, s, i - b, n, m); }
    case TCapture(_, _, p) => EvalMono(g, p, s, i, n, m);
    case TCall(k) => EvalMono(g, g[k], s, i, n - 1, m - 1);
    case TGrammar(rules) => EvalMono(rules, rules[0], s, i, n, m);
    case _ =>
  }

  /** The result of a sequence, from the result of its first part. */
  function After(r1: Res, r2: Res): Res {
    if r1.Yes? && r2.Yes? then Yes(r2.j, r1.caps + r2.caps) else if r1.Yes? then r2 else r1
  }

  lemma SeqEval(g: seq<Tree>, p1: Tree, p2: Tree, s: seq<Byte>, i: nat, n: nat)
    requires i <= |s|
    ensures var r1 := Eval(g, p1, s, i, n);
      Eval(g, TSeq(p1, p2), s, i, n) == if r1.Yes? then After(r1, Eval(g, p2, s, r1.j, n)) else r1
  {
  }

  lemma OrEval(g: seq<Tree>, p1: Tree, p2: Tree, s: seq<Byte>, i: nat, n: nat)
    requires i <= |s|
    ensures var r1 := Eval(g, p1, s, i, n);
      Eval(g, TChoice(p1, p2), s, i, n) == if r1.No? then Eval(g, p2, s, i, n) else r1
    ensures Eval(g, TTrue, s, i, n) == Yes(i, [])
  {
  }

  /** The last entry a match leaves is never an open capture. */
  lemma {:induction false} EvalLastClosed(g: seq<Tree>, t: Tree, s: seq<Byte>, i: nat, n: nat)
    requires i <= |s|
    ensures var r := Eval(g, t, s, i, n); r.Yes? && r.caps != [] ==> r.caps[|r.caps| - 1].siz != 0
    decreases n, t, |s| - i
  {
    match t
    case TRep(p) =>
      EvalLastClosed(g, p, s, i, n);
      var r := Eval(g, p, s, i, n);
      if r.Yes? && r.j > i { EvalLastClosed(g, t, s, r.j, n); }
    case TSeq(p1, p2) =>
      EvalLastClosed(g, p1, s, i, n);
      var r := Eval(g, p1, s, i, n);
      if r.Yes? { EvalLastClosed(g, p2, s, r.j, n); }
    case TChoice(p1, p2) => EvalLastClosed(g, p1, s, i, n); EvalLastClosed(g, p2, s, i, n);
    case TCall(k) => if n > 0 && k < |g| { EvalLastClosed(g, g[k], s, i, n - 1); }
    case TGrammar(rules) => if rules != [] { EvalLastClosed(rules, rules[0], s, i, n); }
    case _ =>
  }
}
