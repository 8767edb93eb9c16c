/** The serializer and parser of old/c/serialize.c: Lua values as text, and back. */
module Serialize {
  import opened Common

  type Text = seq<Byte>

  const NUL: Byte := 0
  const NEWLINE: Byte := 10
  const QUOTE: Byte := 34
  const COMMA: Byte := 44
  const BACKSLASH: Byte := 92
  const OPEN: Byte := 91    // [
  const CLOSE: Byte := 93   // ]
  const EQUALS: Byte := 61
  const LBRACE: Byte := 123
  const RBRACE: Byte := 125
  const TRUE: Text := [116, 114, 117, 101]
  const FALSE: Text := [102, 97, 108, 115, 101]

  /** A Lua value; a table is the list of its entries in the order of 'lua_next', a number is what "%.14g" prints for
      it. */
  datatype Value = Bool(b: bool) | Str(s: Text) | Num(text: Text) | Table(entries: seq<(Value, Value)>)

  // ----- serialize_variable -----

  function Escaped(c: Byte): Text {
    if c == QUOTE || c == BACKSLASH || c == NEWLINE then [BACKSLASH, c]
    else if c == NUL then [BACKSLASH, 48, 48, 48]
    else [c]
  }

  function EscapedAll(s: Text): Text {
    if s == [] then [] else Escaped(s[0]) + EscapedAll(s[1..])
  }

  function Ser(v: Value): (t: Text)
    decreases v, 0
  {
    match v
    case Bool(b) => if b then TRUE else FALSE
    case Num(text) => text
    case Str(s) => [QUOTE] + EscapedAll(s) + [QUOTE]
    case Table(entries) => [LBRACE] + SerEntries(entries) + [RBRACE]
  }

  /** The entries of a table, separated by commas. */
  function SerEntries(es: seq<(Value, Value)>): Text
    decreases es, 0
  {
    if es == [] then [] else SerEntry(es[0]) + SerMore(es[1..])
  }

  function SerEntry(e: (Value, Value)): Text
    decreases e, 0
  {
    [OPEN] + Ser(e.0) + [CLOSE, EQUALS] + Ser(e.1)
  }

  function SerMore(es: seq<(Value, Value)>): Text
    decreases es, 1
  {
    if es == [] then [] else [COMMA] + SerEntries(es)
  }

  // ----- unserialize_variable -----

  /** The character at p, or the terminator. */
  function At(t: Text, p: nat): Byte {
    if p < |t| then t[p] else NUL
  }

  /** Fail: it returns 0. Broken: it runs past the terminator, or returns 1 without a value. */
  datatype Parsed = Fail | Broken | Ok(v: Value, next: nat)

  datatype Scan = Unterminated | Past | Found(len: nat, end: nat, escapes: bool)

  /** The search for the closing quote from e on. */
  function FindQuote(t: Text, e: nat, len: nat, escapes: bool): (r: Scan)
    requires e <= |t|
    ensures r.Found? ==> e <= r.end < |t| && (!r.escapes ==> r.len - len == r.end - e && !escapes)
    decreases |t| - e
  {
    if At(t, e) == QUOTE then Found(len, e, escapes)
    else if e == |t| || t[e] == NUL then Unterminated
    else if t[e] == BACKSLASH then if e + 1 >= |t| then Past else FindQuote(t, e + 2, len + 1, true)
    else FindQuote(t, e + 1, len + 1, escapes)
  }

  /** 'lua_pushcleanlstring': len characters from p on, without the backslashes in front of them. */
  function Clean(t: Text, p: nat, len: nat): Text
    decreases len
  {
    if len == 0 then []
    else if At(t, p) == BACKSLASH then [At(t, p + 1)] + Clean(t, p + 2, len - 1)
    else [At(t, p)] + Clean(t, p + 1, len - 1)
  }

  predicate HasAt(t: Text, p: nat, s: Text) {
    p + |s| <= |t| && t[p..p + |s|] == s
  }

  predicate IsNumeral(c: Byte) {
    48 <= c <= 57 || c == 46 || c == 45
  }

  function NumeralSpan(t: Text, p: nat): (n: nat)
    requires p <= |t|
    ensures p + n <= |t|
    decreases |t| - p
  {
    if p < |t| && IsNumeral(t[p]) then 1 + NumeralSpan(t, p + 1) else 0
  }

  function Parse(t: Text, p: nat): (r: Parsed)
    requires p <= |t|
    ensures r.Ok? ==> p < r.next <= |t|
    decreases |t| - p, 1
  {
    var c := At(t, p);
    if c == QUOTE then
      match FindQuote(t, p + 1, 0, false)
      case Unterminated => Fail
      case Past => Broken
      case Found(len, e, escapes) =>
        Ok(Str(if escapes then Clean(t, p + 1, len) else t[p + 1..p + 1 + len]), e + 1)
    else if c == LBRACE then ParseEntries(t, p + 1, [])
    else if c == 116 || c == 102 then
      if HasAt(t, p, TRUE) then Ok(Bool(true), p + 4)
      else if HasAt(t, p, FALSE) then Ok(Bool(false), p + 5)
      else Broken
    else
      var n := NumeralSpan(t, p);
      if n == 0 then Fail else Ok(Str(t[p..p + n]), p + n)
  }

  /** 'lua_rawset': a key that is there already gets the new value. A table that was just parsed is a new object, so it
      is never there. */
  function RawSet(es: seq<(Value, Value)>, k: Value, v: Value): seq<(Value, Value)> {
    if es == [] then [(k, v)]
    else if es[0].0 == k && !k.Table? then [(k, v)] + es[1..]
    else [es[0]] + RawSet(es[1..], k, v)
  }

  /** The loop over the entries of a table, from the character after a brace or a comma on. */
  function ParseEntries(t: Text, p: nat, acc: seq<(Value, Value)>): (r: Parsed)
    requires p <= |t|
    ensures r.Ok? ==> p < r.next <= |t|
    decreases |t| - p, 0
  {
    if At(t, p) == RBRACE then Ok(Table(acc), p + 1)
    else if At(t, p) != OPEN || At(t, p + 1) == NUL then Fail
    else
      match Parse(t, p + 1)
      case Fail => Fail
      case Broken => Broken
      case Ok(k, q) =>
        if At(t, q) != CLOSE || At(t, q + 1) != EQUALS || At(t, q + 2) == NUL then Fail
        else
          match Parse(t, q + 2)
          case Fail => Fail
          case Broken => Broken
          case Ok(v, r) =>
            var acc' := RawSet(acc, k, v);
            if At(t, r) == COMMA then ParseEntries(t, r + 1, acc')
            else if At(t, r) == RBRACE then Ok(Table(acc'), r + 1)
            else Fail
  }

  // ----- the round trip -----

  predicate NulFree(s: Text) {
    forall i :: 0 <= i < |s| ==> s[i] != NUL
  }

  /** Booleans, strings without NUL, and tables of such values. */
  predicate Plain(v: Value)
    decreases v, 0
  {
    match v
    case Bool(_) => true
    case Num(_) => false
    case Str(s) => NulFree(s)
    case Table(es) => PlainEntries(es)
  }

  predicate PlainEntries(es: seq<(Value, Value)>)
    decreases es, 0
  {
    es != [] ==> PlainEntry(es[0]) && PlainEntries(es[1..])
  }

  predicate PlainEntry(e: (Value, Value))
    decreases e, 0
  {
    Plain(e.0) && Plain(e.1)
  }

  /** Plain, but for NUL characters in strings. */
  predicate NumFree(v: Value)
    decreases v, 0
  {
    match v
    case Num(_) => false
    case Table(es) => NumFreeEntries(es)
    case _ => true
  }

  predicate NumFreeEntries(es: seq<(Value, Value)>)
    decreases es, 0
  {
    es != [] ==> NumFreeEntry(es[0]) && NumFreeEntries(es[1..])
  }

  predicate NumFreeEntry(e: (Value, Value))
    decreases e, 0
  {
    NumFree(e.0) && NumFree(e.1)
  }

  const DIGITS: Text := [48, 48, 48]

  /** What a string comes back as: each NUL has become three digits. */
  function BackText(s: Text): Text {
    if s == [] then [] else (if s[0] == NUL then DIGITS else [s[0]]) + BackText(s[1..])
  }

  function Back(v: Value): Value
    decreases v, 0
  {
    match v
    case Str(s) => Str(BackText(s))
    case Table(es) => Table(BackInto([], es))
    case _ => v
  }

  /** Entries that have the same key when they come back are one entry. */
  function BackInto(acc: seq<(Value, Value)>, es: seq<(Value, Value)>): seq<(Value, Value)>
    decreases es, 0
  {
    if es == [] then acc
    else
      var e := BackEntry(es[0]);
      BackInto(RawSet(acc, e.0, e.1), es[1..])
  }

  function BackEntry(e: (Value, Value)): (Value, Value)
    decreases e, 0
  {
    (Back(e.0), Back(e.1))
  }

  /** If this is a string or a boolean, no entry has it as its key. */
  predicate NoKey(es: seq<(Value, Value)>, k: Value) {
    k.Str? || k.Bool? ==> forall i :: 0 <= i < |es| ==> es[i].0 != k
  }

  /** What every Lua value is: its tables do not have a string or a boolean twice as a key. Two tables are different
      keys even if their entries are the same, and so are two numbers that "%.14g" prints alike. */
  predicate Proper(v: Value)
    decreases v, 0
  {
    v.Table? ==> ProperEntries(v.entries)
  }

  predicate ProperEntries(es: seq<(Value, Value)>)
    decreases es, 0
  {
    es != [] ==> ProperEntry(es[0]) && NoKey(es[1..], es[0].0) && ProperEntries(es[1..])
  }

  predicate ProperEntry(e: (Value, Value))
    decreases e, 0
  {
    Proper(e.0) && Proper(e.1)
  }

  predicate NeedsEscape(s: Text) {
    s != [] && (|Escaped(s[0])| > 1 || NeedsEscape(s[1..]))
  }

  lemma HasParts(t: Text, p: nat, a: Text, b: Text)
    ensures HasAt(t, p, a + b) <==> HasAt(t, p, a) && HasAt(t, p + |a|, b)
  {
    if HasAt(t, p, a + b) {
      assert t[p..p + |a|] == t[p..p + |a + b|][..|a|];
      assert t[p + |a|..p + |a| + |b|] == t[p..p + |a + b|][|a|..];
    }
    if HasAt(t, p, a) && HasAt(t, p + |a|, b) {
      assert t[p..p + |a + b|] == t[p..p + |a|] + t[p + |a|..p + |a| + |b|];
    }
  }

  lemma HasChar(t: Text, p: nat, s: Text)
    requires HasAt(t, p, s) && s != []
    ensures p < |t| && t[p] == s[0] && At(t, p) == s[0]
    ensures |s| > 1 ==> p + 1 < |t| && t[p + 1] == s[1]
  {
    assert t[p..p + |s|][0] == t[p];
    if |s| > 1 { assert t[p..p + |s|][1] == t[p + 1]; }
  }

  /** Scanning an escaped string finds its end, its length, and whether it has to be cleaned. */
  lemma {:induction false} QuoteFound(t: Text, e: nat, s: Text, len: nat, escapes: bool)
    requires HasAt(t, e, EscapedAll(s)) && At(t, e + |EscapedAll(s)|) == QUOTE
    ensures FindQuote(t, e, len, escapes) == Found(len + |BackText(s)|, e + |EscapedAll(s)|, escapes || NeedsEscape(s))
    decreases |s|
  {
    hide HasAt, FindQuote, Escaped;
    if s == [] {
      AtQuote(t, e, len, escapes);
    } else {
      var c := Escaped(s[0]);
      HasParts(t, e, c, EscapedAll(s[1..]));
      OneFound(t, e, s[0], len, escapes);
      QuoteFound(t, e + |c|, s[1..], len + |BackText(s)| - |BackText(s[1..])|, escapes || |c| > 1);
    }
  }

  lemma AtQuote(t: Text, e: nat, len: nat, escapes: bool)
    requires At(t, e) == QUOTE
    ensures e < |t| && FindQuote(t, e, len, escapes) == Found(len, e, escapes)
  {
  }

  /** One character of the string. */
  lemma OneFound(t: Text, e: nat, c: Byte, len: nat, escapes: bool)
    requires HasAt(t, e, Escaped(c))
    ensures e + |Escaped(c)| <= |t|
    ensures FindQuote(t, e, len, escapes) ==
      FindQuote(t, e + |Escaped(c)|, len + if c == NUL then 3 else 1, escapes || |Escaped(c)| > 1)
  {
    hide HasAt;
    if c == NUL {
      assert Escaped(c) == [BACKSLASH] + DIGITS;
      SkipDigits(t, e, len, escapes);
    } else {
      HasChar(t, e, Escaped(c));
    }
  }

  lemma HasFour(t: Text, p: nat)
    requires HasAt(t, p, [BACKSLASH] + DIGITS)
    ensures p + 4 <= |t| && t[p] == BACKSLASH && t[p + 1] == t[p + 2] == t[p + 3] == 48
  {
    var x := t[p..p + 4];
    assert t[p] == x[0] && t[p + 1] == x[1] && t[p + 2] == x[2] && t[p + 3] == x[3];
  }

  lemma SkipDigits(t: Text, e: nat, len: nat, escapes: bool)
    requires HasAt(t, e, [BACKSLASH] + DIGITS)
    ensures e + 4 <= |t| && FindQuote(t, e, len, escapes) == FindQuote(t, e + 4, len + 3, true)
  {
    hide HasAt;
    HasFour(t, e);
    assert FindQuote(t, e + 2, len + 1, true) == FindQuote(t, e + 3, len + 2, true);
    assert FindQuote(t, e + 3, len + 2, true) == FindQuote(t, e + 4, len + 3, true);
  }

  lemma {:induction false} Cleaned(t: Text, p: nat, s: Text)
    requires HasAt(t, p, EscapedAll(s))
    ensures Clean(t, p, |BackText(s)|) == BackText(s)
    decreases |s|
  {
    hide HasAt;
    if s != [] {
      var c := Escaped(s[0]);
      HasParts(t, p, c, EscapedAll(s[1..]));
      Cleaned(t, p + |c|, s[1..]);
      assert s[0] == NUL ==> c == [BACKSLASH] + DIGITS;
      if s[0] == NUL { CleanDigits(t, p, |BackText(s[1..])|); } else { HasChar(t, p, c); }
    }
  }

  lemma CleanDigits(t: Text, p: nat, len: nat)
    requires HasAt(t, p, [BACKSLASH] + DIGITS)
    ensures Clean(t, p, len + 3) == DIGITS + Clean(t, p + 4, len)
  {
    hide HasAt;
    HasFour(t, p);
    assert Clean(t, p + 3, len + 1) == [48] + Clean(t, p + 4, len);
    assert Clean(t, p + 2, len + 2) == [48] + Clean(t, p + 3, len + 1);
    assert Clean(t, p, len + 3) == [48] + Clean(t, p + 2, len + 2);
  }

  lemma {:induction false} NotEscaped(s: Text)
    requires !NeedsEscape(s)
    ensures EscapedAll(s) == s == BackText(s)
    decreases |s|
  {
    if s != [] { NotEscaped(s[1..]); }
  }

  lemma ParseString(t: Text, p: nat, s: Text)
    requires HasAt(t, p, [QUOTE] + EscapedAll(s) + [QUOTE])
    ensures Parse(t, p) == Ok(Str(BackText(s)), p + |EscapedAll(s)| + 2)
  {
    hide HasAt, FindQuote, Clean, EscapedAll, Parse, At, BackText;
    var x := EscapedAll(s);
    assert [QUOTE] + x + [QUOTE] == [QUOTE] + (x + [QUOTE]);
    HasParts(t, p, [QUOTE], x + [QUOTE]);
    HasParts(t, p + 1, x, [QUOTE]);
    HasChar(t, p, [QUOTE]);
    HasChar(t, p + 1 + |x|, [QUOTE]);
    QuoteFound(t, p + 1, s, 0, false);
    Cleaned(t, p + 1, s);
    if !NeedsEscape(s) {
      NotEscaped(s);
      HasSlice(t, p + 1, s);
    }
    ParseQuoted(t, p);
  }

  lemma HasSlice(t: Text, p: nat, s: Text)
    requires HasAt(t, p, s)
    ensures p + |s| <= |t| && t[p..p + |s|] == s
  {
  }

  lemma ParseQuoted(t: Text, p: nat)
    requires p < |t| && At(t, p) == QUOTE && FindQuote(t, p + 1, 0, false).Found?
    ensures var f := FindQuote(t, p + 1, 0, false);
      Parse(t, p) == Ok(Str(if f.escapes then Clean(t, p + 1, f.len) else t[p + 1..p + 1 + f.len]), f.end + 1)
  {
  }

  /** One turn of the loop over the entries. */
  lemma ParseEntry(t: Text, p: nat, acc: seq<(Value, Value)>, k: Value, q: nat, v: Value, r: nat)
    requires p < |t| && At(t, p) == OPEN && At(t, p + 1) != NUL && Parse(t, p + 1) == Ok(k, q)
    requires q + 2 <= |t| && At(t, q) == CLOSE && At(t, q + 1) == EQUALS && At(t, q + 2) != NUL
    requires Parse(t, q + 2) == Ok(v, r)
    ensures r <= |t|
    ensures ParseEntries(t, p, acc) ==
      if At(t, r) == COMMA then ParseEntries(t, r + 1, RawSet(acc, k, v))
      else if At(t, r) == RBRACE then Ok(Table(RawSet(acc, k, v)), r + 1) else Fail
  {
    hide Parse;
  }

  lemma ParseNoEntry(t: Text, p: nat, acc: seq<(Value, Value)>)
    requires p <= |t| && At(t, p) == RBRACE
    ensures ParseEntries(t, p, acc) == Ok(Table(acc), p + 1)
  {
  }

  /** The first character of a value is not a terminator. */
  lemma StartsWell(v: Value)
    requires NumFree(v)
    ensures |Ser(v)| > 0 && Ser(v)[0] != NUL
  {
  }

  /** Parsing what was printed, wherever it stands in a text, gives the value back but for NUL characters, and stops
      right behind it. */
  lemma {:induction false} RoundTrip(v: Value, t: Text, p: nat)
    requires NumFree(v) && HasAt(t, p, Ser(v))
    ensures Parse(t, p) == Ok(Back(v), p + |Ser(v)|)
    decreases v, 0
  {
    hide ParseEntries, FindQuote, Clean, EscapedAll, SerEntries, BackText, BackInto;
    match v
    case Bool(b) =>
      HasChar(t, p, Ser(v));
      if !b { assert !HasAt(t, p, TRUE) by { if HasAt(t, p, TRUE) { HasChar(t, p, TRUE); } } }
    case Str(s) =>
      ParseString(t, p, s);
    case Table(es) =>
      var x := SerEntries(es);
      assert Ser(v) == [LBRACE] + (x + [RBRACE]);
      HasParts(t, p, [LBRACE], x + [RBRACE]);
      HasChar(t, p, [LBRACE]);
      EntriesRoundTrip(es, t, p + 1, []);
  }

  lemma {:induction false} EntriesRoundTrip(es: seq<(Value, Value)>, t: Text, p: nat, acc: seq<(Value, Value)>)
    requires NumFreeEntries(es) && HasAt(t, p, SerEntries(es) + [RBRACE])
    ensures ParseEntries(t, p, acc) == Ok(Table(BackInto(acc, es)), p + |SerEntries(es)| + 1)
    decreases es, 1
  {
    hide Parse, Ser, ParseEntries, HasAt, SerEntry, At, BackEntry, RawSet;
    if es == [] {
      assert SerEntries(es) + [RBRACE] == [RBRACE];
      HasChar(t, p, [RBRACE]);
      ParseNoEntry(t, p, acc);
    } else {
      FirstRoundTrip(es, t, p, acc);
    }
  }

  /** The first entry, and those that follow. */
  lemma {:induction false} FirstRoundTrip(es: seq<(Value, Value)>, t: Text, p: nat, acc: seq<(Value, Value)>)
    requires es != [] && NumFreeEntries(es) && HasAt(t, p, SerEntries(es) + [RBRACE])
    ensures ParseEntries(t, p, acc) == Ok(Table(BackInto(acc, es)), p + |SerEntries(es)| + 1)
    decreases es, 0
  {
    hide Parse, Ser, ParseEntries, HasAt, SerEntry, At, BackEntry, RawSet;
    var e, more := es[0], es[1..];
    var rest := SerMore(more) + [RBRACE];
    SerFirst(es);
    HasParts(t, p, SerEntry(e), rest);
    EntryRoundTrip(e, t, p, acc);
    var r := p + |SerEntry(e)|;
    HasChar(t, r, rest);
    if more == [] {
      assert rest == [RBRACE];
    } else {
      assert rest == [COMMA] + (SerEntries(more) + [RBRACE]);
      HasParts(t, r, [COMMA], SerEntries(more) + [RBRACE]);
      EntriesRoundTrip(more, t, r + 1, RawSet(acc, BackEntry(e).0, BackEntry(e).1));
    }
  }

  lemma SerFirst(es: seq<(Value, Value)>)
    requires es != []
    ensures SerEntries(es) + [RBRACE] == SerEntry(es[0]) + (SerMore(es[1..]) + [RBRACE])
  {
    hide SerEntry, SerMore;
  }

  /** One entry of a table. */
  lemma {:induction false} EntryRoundTrip(e: (Value, Value), t: Text, p: nat, acc: seq<(Value, Value)>)
    requires NumFreeEntry(e) && HasAt(t, p, SerEntry(e))
    ensures var r := p + |SerEntry(e)|; var acc' := RawSet(acc, BackEntry(e).0, BackEntry(e).1);
      ParseEntries(t, p, acc) ==
        if At(t, r) == COMMA then ParseEntries(t, r + 1, acc')
        else if At(t, r) == RBRACE then Ok(Table(acc'), r + 1) else Fail
    decreases e, 0
  {
    hide Parse, Ser, ParseEntries, HasAt, At, Back, RawSet;
    var k, v := Ser(e.0), Ser(e.1);
    assert SerEntry(e) == [OPEN] + (k + ([CLOSE, EQUALS] + v));
    HasParts(t, p, [OPEN], k + ([CLOSE, EQUALS] + v));
    HasParts(t, p + 1, k, [CLOSE, EQUALS] + v);
    HasParts(t, p + 1 + |k|, [CLOSE, EQUALS], v);
    HasChar(t, p, [OPEN]);
    StartsWell(e.0);
    StartsWell(e.1);
    HasChar(t, p + 1, k);
    HasChar(t, p + 1 + |k|, [CLOSE, EQUALS]);
    HasChar(t, p + 3 + |k|, v);
    RoundTrip(e.0, t, p + 1);
    RoundTrip(e.1, t, p + 3 + |k|);
    SecondChar(t, p + 1 + |k|);
    ParseEntry(t, p, acc, Back(e.0), p + 1 + |k|, Back(e.1), p + 3 + |k| + |v|);
  }

  lemma SecondChar(t: Text, p: nat)
    requires HasAt(t, p, [CLOSE, EQUALS])
    ensures At(t, p) == CLOSE && At(t, p + 1) == EQUALS
  {
    HasChar(t, p, [CLOSE, EQUALS]);
  }

  // ----- exactly which values come back -----

  lemma {:induction false} BackTextSame(s: Text)
    ensures |BackText(s)| >= |s| && (BackText(s) == s <==> NulFree(s))
  {
    if s != [] {
      BackTextSame(s[1..]);
      if s[0] != NUL {
        assert BackText(s)[1..] == BackText(s[1..]);
        assert s == [s[0]] + s[1..];
        assert NulFree(s) ==> NulFree(s[1..]);
      }
    }
  }

  /** A string that has come back has no NUL. */
  lemma {:induction false} BackTextClean(s: Text)
    ensures NulFree(BackText(s))
  {
    if s != [] { BackTextClean(s[1..]); }
  }

  /** Whatever comes back is plain. */
  lemma {:induction false} BackPlain(v: Value)
    requires NumFree(v)
    ensures Plain(Back(v))
    decreases v, 0
  {
    match v
    case Str(s) => BackTextClean(s);
    case Table(es) => BackIntoPlain([], es);
    case _ =>
  }

  lemma {:induction false} BackIntoPlain(acc: seq<(Value, Value)>, es: seq<(Value, Value)>)
    requires PlainEntries(acc) && NumFreeEntries(es)
    ensures PlainEntries(BackInto(acc, es))
    decreases es, 0
  {
    if es != [] {
      var e := BackEntry(es[0]);
      BackEntryPlain(es[0]);
      PlainSet(acc, e.0, e.1);
      BackIntoPlain(RawSet(acc, e.0, e.1), es[1..]);
    }
  }

  lemma {:induction false} BackEntryPlain(e: (Value, Value))
    requires NumFreeEntry(e)
    ensures PlainEntry(BackEntry(e))
    decreases e, 0
  {
    BackPlain(e.0);
    BackPlain(e.1);
  }

  lemma {:induction false} PlainSet(es: seq<(Value, Value)>, k: Value, v: Value)
    requires PlainEntries(es) && Plain(k) && Plain(v)
    ensures PlainEntries(RawSet(es, k, v))
    decreases |es|
  {
    hide Plain;
    assert PlainEntry((k, v)) by { PlainPair(k, v); }
    if es != [] {
      if es[0].0 != k || k.Table? { PlainSet(es[1..], k, v); }
      var set_ := RawSet(es, k, v);
      assert set_[1..] == if es[0].0 == k && !k.Table? then es[1..] else RawSet(es[1..], k, v);
    }
  }

  lemma PlainPair(k: Value, v: Value)
    requires Plain(k) && Plain(v)
    ensures PlainEntry((k, v))
  {
  }

  /** A plain value comes back as it was. */
  lemma {:induction false} PlainBack(v: Value)
    requires Plain(v) && Proper(v)
    ensures NumFree(v) && Back(v) == v
    decreases v, 0
  {
    match v
    case Str(s) => BackTextSame(s);
    case Table(es) =>
      PlainInto([], es);
      assert [] + es == es;
    case _ =>
  }

  lemma {:induction false} PlainInto(acc: seq<(Value, Value)>, es: seq<(Value, Value)>)
    requires PlainEntries(es) && ProperEntries(es) && forall i :: 0 <= i < |es| ==> NoKey(acc, es[i].0)
    ensures NumFreeEntries(es) && BackInto(acc, es) == acc + es
    decreases es, 0
  {
    hide Back, RawSet;
    if es != [] {
      var e, more := es[0], es[1..];
      PlainBackEntry(e);
      NewKey(acc, e.0, e.1);
      var acc' := acc + [e];
      forall i | 0 <= i < |more| ensures NoKey(acc', more[i].0) {
        assert more[i] == es[i + 1] && NoKey(acc, es[i + 1].0);
      }
      PlainInto(acc', more);
      assert acc' + more == acc + es;
    }
  }

  lemma {:induction false} PlainBackEntry(e: (Value, Value))
    requires PlainEntry(e) && ProperEntry(e)
    ensures NumFreeEntry(e) && BackEntry(e) == e
    decreases e, 0
  {
    PlainBack(e.0);
    PlainBack(e.1);
    assert e == (e.0, e.1);
  }

  lemma {:induction false} NewKey(es: seq<(Value, Value)>, k: Value, v: Value)
    requires NoKey(es, k) && !k.Num?
    ensures RawSet(es, k, v) == es + [(k, v)]
    decreases |es|
  {
    if es != [] { NewKey(es[1..], k, v); }
  }

  /** A value is what it comes back as exactly if it has no numbers and no NUL characters. */
  lemma BackSame(v: Value)
    requires Proper(v)
    ensures Plain(v) <==> NumFree(v) && Back(v) == v
  {
    if Plain(v) { PlainBack(v); } else if NumFree(v) { BackPlain(v); }
  }

  /** The parser makes no numbers. */
  lemma {:induction false} ParsedNumFree(t: Text, p: nat)
    requires p <= |t|
    ensures Parse(t, p).Ok? ==> NumFree(Parse(t, p).v)
    decreases |t| - p, 1
  {
    hide FindQuote, Clean, HasAt, NumeralSpan;
    if At(t, p) == LBRACE { ParsedEntriesNumFree(t, p + 1, []); }
  }

  lemma {:induction false} ParsedEntriesNumFree(t: Text, p: nat, acc: seq<(Value, Value)>)
    requires p <= |t| && NumFreeEntries(acc)
    ensures ParseEntries(t, p, acc).Ok? ==> NumFree(ParseEntries(t, p, acc).v)
    decreases |t| - p, 0
  {
    hide Parse;
    if At(t, p) == OPEN && At(t, p + 1) != NUL {
      ParsedNumFree(t, p + 1);
      var k := Parse(t, p + 1);
      if k.Ok? && At(t, k.next) == CLOSE && At(t, k.next + 1) == EQUALS && At(t, k.next + 2) != NUL {
        ParsedNumFree(t, k.next + 2);
        var v := Parse(t, k.next + 2);
        if v.Ok? {
          NumFreeSet(acc, k.v, v.v);
          if At(t, v.next) == COMMA { ParsedEntriesNumFree(t, v.next + 1, RawSet(acc, k.v, v.v)); }
        }
      }
    }
  }

  lemma {:induction false} NumFreeSet(es: seq<(Value, Value)>, k: Value, v: Value)
    requires NumFreeEntries(es) && NumFree(k) && NumFree(v)
    ensures NumFreeEntries(RawSet(es, k, v))
    decreases |es|
  {
    hide NumFree;
    assert NumFreeEntry((k, v)) by { NumFreePair(k, v); }
    if es != [] {
      if es[0].0 != k || k.Table? { NumFreeSet(es[1..], k, v); }
      var set_ := RawSet(es, k, v);
      assert set_[1..] == if es[0].0 == k && !k.Table? then es[1..] else RawSet(es[1..], k, v);
    }
  }

  lemma NumFreePair(k: Value, v: Value)
    requires NumFree(k) && NumFree(v)
    ensures NumFreeEntry((k, v))
  {
  }

  /** Serialize, then unserialize: the value comes back, and all of the text is used, exactly if the value has no
      numbers and no NUL characters in it. */
  lemma SerializeUnserialize(v: Value)
    requires Proper(v)
    ensures Parse(Ser(v), 0) == Ok(v, |Ser(v)|) <==> Plain(v)
  {
    BackSame(v);
    ParsedNumFree(Ser(v), 0);
    if NumFree(v) { RoundTrip(v, Ser(v), 0); }
  }

  /** A string comes back exactly if it has no NUL; otherwise each NUL has become three digits. */
  lemma NulComesBackAsDigits(s: Text)
    ensures Parse(Ser(Str(s)), 0) == Ok(Str(BackText(s)), |Ser(Str(s))|)
    ensures BackText(s) == s <==> NulFree(s)
  {
    hide Parse, Ser;
    RoundTrip(Str(s), Ser(Str(s)), 0);
    BackTextSame(s);
  }

  /** Two keys that come back as the same string are one key afterwards: the second entry replaces the first. */
  lemma KeysCollapse(s1: Text, s2: Text, a: bool, b: bool)
    ensures var v := Table([(Str(s1), Bool(a)), (Str(s2), Bool(b))]);
      var k1, k2 := Str(BackText(s1)), Str(BackText(s2));
      Parse(Ser(v), 0) == Ok(Table(if k1 == k2 then [(k2, Bool(b))] else [(k1, Bool(a)), (k2, Bool(b))]), |Ser(v)|)
  {
    hide Parse, Ser, BackText;
    var e1, e2 := (Str(s1), Bool(a)), (Str(s2), Bool(b));
    TwoEntries(e1, e2);
    RoundTrip(Table([e1, e2]), Ser(Table([e1, e2])), 0);
    var k1, k2 := Str(BackText(s1)), Str(BackText(s2));
    assert BackEntry(e1) == (k1, Bool(a)) && BackEntry(e2) == (k2, Bool(b));
    assert [(k1, Bool(a))][1..] == [];
  }

  lemma TwoEntries(e1: (Value, Value), e2: (Value, Value))
    requires NumFreeEntry(e1) && NumFreeEntry(e2)
    ensures NumFree(Table([e1, e2]))
    ensures var b1, b2 := BackEntry(e1), BackEntry(e2);
      Back(Table([e1, e2])) == Table(RawSet([b1], b2.0, b2.1))
  {
    hide BackEntry, NumFreeEntry;
    assert [e1, e2][1..] == [e2] && [e2][1..] == [];
    assert NumFreeEntries([e2]);
    var b1 := BackEntry(e1);
    assert RawSet([], b1.0, b1.1) == [b1];
    assert BackInto([b1], [e2]) == RawSet([b1], BackEntry(e2).0, BackEntry(e2).1);
  }

  /** What "%.14g" can print: a sign or a digit, or the start of inf or nan. */
  predicate StartsNumber(text: Text) {
    text != [] && (IsNumeral(text[0]) || text[0] == 105 || text[0] == 110)
  }

  /** A number comes back as the string of its leading digits, dots and signs: all of it if there is no exponent, the
      part in front of the exponent otherwise; without such characters in front it does not come back at all. */
  lemma NumbersComeBackAsStrings(text: Text)
    requires StartsNumber(text)
    ensures var n := NumeralSpan(text, 0);
      && Parse(Ser(Num(text)), 0) == (if IsNumeral(text[0]) then Ok(Str(text[..n]), n) else Fail)
      && (n == |text| <==> forall i :: 0 <= i < |text| ==> IsNumeral(text[i]))
      && (forall i :: 0 <= i < n ==> IsNumeral(text[i])) && (n < |text| ==> !IsNumeral(text[n]))
  {
    SpanMeans(text, 0);
  }

  lemma {:induction false} SpanMeans(text: Text, p: nat)
    requires p <= |text|
    ensures var n := NumeralSpan(text, p);
      (forall i :: p <= i < p + n ==> IsNumeral(text[i])) && (p + n < |text| ==> !IsNumeral(text[p + n]))
    decreases |text| - p
  {
    if p < |text| && IsNumeral(text[p]) { SpanMeans(text, p + 1); }
  }

  // ----- the buffer -----

  const BUF_INC: nat := 2048

  /** 'charbuf': 'free' bytes at the end of the allocated ones are unused. */
  class CharBuf {
    var p: array<Byte>
    var free: nat

    ghost predicate Valid()
      reads this
    {
      free <= p.Length
    }

    ghost function Contents(): Text
      requires Valid()
      reads this, p
    {
      p[..p.Length - free]
    }

    constructor ()
      ensures Valid() && fresh(p) && Contents() == []
    {
      p := new Byte[BUF_INC];
      free := BUF_INC;
    }

    /** 'charbuf_make_space'. */
    method MakeSpace(need: nat)
      requires Valid()
      modifies this
      ensures Valid() && free >= need && Contents() == old(Contents()) && (p == old(p) || fresh(p))
    {
      ghost var used := Contents();
      while free < need
        invariant Valid() && Contents() == used && (p == old(p) || fresh(p))
        decreases need - free
      {
        var bigger := new Byte[p.Length + BUF_INC];
        forall i | 0 <= i < p.Length { bigger[i] := p[i]; }
        assert bigger[..p.Length - free] == p[..p.Length - free];
        p := bigger;
        free := free + BUF_INC;
      }
    }

    /** 'charbuf_addchar'. */
    method AddChar(c: Byte)
      requires Valid()
      modifies this, p
      ensures Valid() && Contents() == old(Contents()) + [c] && (p == old(p) || fresh(p))
    {
      MakeSpace(1);
      ghost var used := Contents();
      p[p.Length - free] := c;
      free := free - 1;
      assert Contents() == used + [c];
    }

    /** 'charbuf_addstring'. */
    method AddString(d: Text)
      requires Valid()
      modifies this, p
      ensures Valid() && Contents() == old(Contents()) + d && (p == old(p) || fresh(p))
    {
      MakeSpace(|d|);
      ghost var used := Contents();
      var at := p.Length - free;
      forall i | 0 <= i < |d| { p[at + i] := d[i]; }
      free := free - |d|;
      assert p[..at] == used;
      assert p[at..at + |d|] == d;
      assert Contents() == p[..at] + p[at..at + |d|];
    }
  }

  // ----- the recursive functions, on the buffer and on a moving pointer -----

  /** 'serialize_variable'. */
  method SerializeVariable(v: Value, b: CharBuf)
    requires b.Valid()
    modifies b, b.p
    ensures b.Valid() && b.Contents() == old(b.Contents()) + Ser(v) && (b.p == old(b.p) || fresh(b.p))
    decreases v, 0
  {
    match v
    case Bool(x) => b.AddString(if x then TRUE else FALSE);
    case Num(text) => b.AddString(text);
    case Str(s) => SerializeString(s, b);
    case Table(es) => SerializeTable(es, b);
  }

  method SerializeString(s: Text, b: CharBuf)
    requires b.Valid()
    modifies b, b.p
    ensures b.Valid() && b.Contents() == old(b.Contents()) + Ser(Str(s)) && (b.p == old(b.p) || fresh(b.p))
  {
    hide EscapedAll, Escaped;
    ghost var before, done := b.Contents(), [QUOTE];
    b.AddChar(QUOTE);
    var i := 0;
    EscapedNone(s);
    while i < |s|
      invariant 0 <= i <= |s| && b.Valid() && (b.p == old(b.p) || fresh(b.p))
      invariant b.Contents() == before + done && done + EscapedAll(s[i..]) == [QUOTE] + EscapedAll(s)
    {
      EscapedFirst(s, i);
      Joined(before, done, Escaped(s[i]));
      Joined(done, Escaped(s[i]), EscapedAll(s[i + 1..]));
      SerializeChar(s[i], b);
      done := done + Escaped(s[i]);
      i := i + 1;
    }
    Joined(before, done, [QUOTE]);
    b.AddChar(QUOTE);
  }

  method SerializeChar(c: Byte, b: CharBuf)
    requires b.Valid()
    modifies b, b.p
    ensures b.Valid() && b.Contents() == old(b.Contents()) + Escaped(c) && (b.p == old(b.p) || fresh(b.p))
  {
    if c == QUOTE || c == BACKSLASH || c == NEWLINE {
      b.AddChar(BACKSLASH);
      b.AddChar(c);
    } else if c == NUL {
      b.AddString([BACKSLASH, 48, 48, 48]);
    } else {
      b.AddChar(c);
    }
  }

  lemma Joined(a: Text, b: Text, c: Text)
    ensures (a + b) + c == a + (b + c)
  {
  }

  lemma EscapedFirst(s: Text, i: nat)
    requires i < |s|
    ensures EscapedAll(s[i..]) == Escaped(s[i]) + EscapedAll(s[i + 1..])
  {
    assert s[i..][1..] == s[i + 1..];
  }

  lemma EscapedNone(s: Text)
    ensures EscapedAll(s[|s|..]) == [] && s[0..] == s
  {
  }

  method SerializeTable(es: seq<(Value, Value)>, b: CharBuf)
    requires b.Valid()
    modifies b, b.p
    ensures b.Valid() && b.Contents() == old(b.Contents()) + Ser(Table(es)) && (b.p == old(b.p) || fresh(b.p))
    decreases es, 1
  {
    hide SerEntries, SerMore, SerEntry, Rest;
    ghost var before, done := b.Contents(), [LBRACE];
    b.AddChar(LBRACE);
    var i := 0;
    RestNone(es);
    while i < |es|
      invariant 0 <= i <= |es| && b.Valid() && (b.p == old(b.p) || fresh(b.p))
      invariant b.Contents() == before + done && done + Rest(es, i) == [LBRACE] + SerEntries(es)
    {
      RestFirst(es, i);
      if i > 0 {
        Joined(before, done, [COMMA]);
        Joined(done, [COMMA], SerEntry(es[i]) + Rest(es, i + 1));
        b.AddChar(COMMA);
        done := done + [COMMA];
      }
      Joined(before, done, SerEntry(es[i]));
      Joined(done, SerEntry(es[i]), Rest(es, i + 1));
      SerializeEntry(es[i], b);
      done := done + SerEntry(es[i]);
      i := i + 1;
    }
    Joined(before, done, [RBRACE]);
    b.AddChar(RBRACE);
  }

  /** What is still to be printed after i entries. */
  ghost function Rest(es: seq<(Value, Value)>, i: nat): Text
    requires i <= |es|
  {
    if i == 0 then SerEntries(es) else SerMore(es[i..])
  }

  lemma RestFirst(es: seq<(Value, Value)>, i: nat)
    requires i < |es|
    ensures Rest(es, i) == if i > 0 then [COMMA] + (SerEntry(es[i]) + Rest(es, i + 1)) else SerEntry(es[i]) + Rest(es,
        i + 1)
  {
    hide SerEntry;
    var rest := es[i..];
    assert rest[0] == es[i] && rest[1..] == es[i + 1..];
    assert SerEntries(rest) == SerEntry(rest[0]) + SerMore(rest[1..]);
    if i == 0 { assert rest == es; }
  }

  lemma RestNone(es: seq<(Value, Value)>)
    ensures Rest(es, |es|) == [] && Rest(es, 0) == SerEntries(es)
  {
  }

  method SerializeEntry(e: (Value, Value), b: CharBuf)
    requires b.Valid()
    modifies b, b.p
    ensures b.Valid() && b.Contents() == old(b.Contents()) + SerEntry(e) && (b.p == old(b.p) || fresh(b.p))
    decreases e, 0
  {
    hide Ser;
    ghost var before := b.Contents();
    b.AddChar(OPEN);
    SerializeVariable(e.0, b);
    Joined(before, [OPEN], Ser(e.0));
    b.AddChar(CLOSE);
    b.AddChar(EQUALS);
    EndOfKey(before, [OPEN] + Ser(e.0));
    SerializeVariable(e.1, b);
    Joined(before, [OPEN] + Ser(e.0) + [CLOSE, EQUALS], Ser(e.1));
  }

  lemma EndOfKey(before: Text, key: Text)
    ensures before + key + [CLOSE] + [EQUALS] == before + (key + [CLOSE, EQUALS])
  {
  }

  /** 'lua_pushcleanlstring'. */
  method PushClean(t: Text, start: nat, len: nat) returns (s: Text)
    ensures s == Clean(t, start, len)
  {
    hide Clean, At;
    s := [];
    var p, i := start, 0;
    while i < len
      invariant 0 <= i <= len && s + Clean(t, p, len - i) == Clean(t, start, len)
    {
      CleanFirst(t, p, len - i);
      ghost var s0 := s;
      if At(t, p) == BACKSLASH { p := p + 1; }
      s := s + [At(t, p)];
      p := p + 1;
      Joined(s0, [At(t, p - 1)], Clean(t, p, len - i - 1));
      i := i + 1;
    }
    CleanNone(t, p);
  }

  lemma CleanFirst(t: Text, p: nat, len: nat)
    requires len > 0
    ensures var q := if At(t, p) == BACKSLASH then p + 1 else p;
      Clean(t, p, len) == [At(t, q)] + Clean(t, q + 1, len - 1)
  {
  }

  lemma CleanNone(t: Text, p: nat)
    ensures Clean(t, p, 0) == []
  {
  }

  /** 'unserialize_variable'. */
  method UnserializeVariable(t: Text, start: nat) returns (r: Parsed)
    requires start <= |t|
    ensures r == Parse(t, start)
    decreases |t| - start, 1
  {
    var p := start;
    if At(t, p) == QUOTE {
      p := p + 1;
      r := UnserializeString(t, p);
    } else if At(t, p) == LBRACE {
      r := UnserializeTable(t, p + 1);
    } else if At(t, p) == 116 || At(t, p) == 102 {
      if HasAt(t, p, TRUE) { return Ok(Bool(true), p + 4); }
      if HasAt(t, p, FALSE) { return Ok(Bool(false), p + 5); }
      return Broken;
    } else {
      var n := 0;
      while p + n < |t| && IsNumeral(t[p + n])
        invariant 0 <= n <= |t| - p && NumeralSpan(t, p) == n + NumeralSpan(t, p + n)
      {
        n := n + 1;
      }
      if n == 0 { return Fail; }
      return Ok(Str(t[p..p + n]), p + n);
    }
  }

  method UnserializeString(t: Text, p: nat) returns (r: Parsed)
    requires 0 < p <= |t| && At(t, p - 1) == QUOTE
    ensures r == Parse(t, p - 1)
  {
    hide ParseEntries, Clean;
    var e, len: nat, copy := p, 0, false;
    while At(t, e) != QUOTE
      invariant p <= e <= |t| && FindQuote(t, e, len, copy) == FindQuote(t, p, 0, false)
      decreases |t| - e
    {
      if At(t, e) == NUL { return Fail; }
      if At(t, e) == BACKSLASH {
        e := e + 1;
        copy := true;
        if e >= |t| { return Broken; }
      }
      e := e + 1;
      len := len + 1;
    }
    if copy {
      var s := PushClean(t, p, len);
      return Ok(Str(s), e + 1);
    }
    return Ok(Str(t[p..p + len]), e + 1);
  }

  method UnserializeTable(t: Text, start: nat) returns (r: Parsed)
    requires start <= |t|
    ensures r == ParseEntries(t, start, [])
    decreases |t| - start, 0
  {
    hide Parse, HasAt;
    var p, acc: seq<(Value, Value)> := start, [];
    while At(t, p) != RBRACE
      invariant start <= p <= |t| && ParseEntries(t, p, acc) == ParseEntries(t, start, [])
      decreases |t| - p
    {
      if At(t, p) != OPEN || At(t, p + 1) == NUL { return Fail; }
      var k := UnserializeVariable(t, p + 1);
      if !k.Ok? { return k; }
      var q := k.next;
      if At(t, q) != CLOSE || At(t, q + 1) != EQUALS || At(t, q + 2) == NUL { return Fail; }
      var v := UnserializeVariable(t, q + 2);
      if !v.Ok? { return v; }
      ParseEntry(t, p, acc, k.v, q, v.v, v.next);
      acc := RawSet(acc, k.v, v.v);
      p := v.next;
      if At(t, p) != COMMA {
        if At(t, p) != RBRACE { return Fail; }
        return Ok(Table(acc), p + 1);
      }
      p := p + 1;
    }
    return Ok(Table(acc), p + 1);
  }
}
