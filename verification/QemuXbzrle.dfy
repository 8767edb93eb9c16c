/** The delta codec of RAM migration (xbzrle.c): runs of equal bytes, and runs of changed bytes with their new
    values. */
module Xbzrle {
  import opened Common

  type Page = seq<Byte>

  /** Longest run that 'uleb128_encode_small' can express. */
  const MAXRUN: nat := 0x3fff

  // ----- numbers -----

  function Uleb(n: nat): (s: seq<Byte>)
    requires n <= MAXRUN
    ensures 1 <= |s| <= 2
  {
    if n < 0x80 then [n] else [n % 0x80 + 0x80, n / 0x80]
  }

  datatype Number = Bad | Number(value: nat, size: nat)

  /** 'uleb128_decode_small'. */
  function UnUleb(src: seq<Byte>, i: nat): (r: Number)
    requires i + 2 <= |src|
    ensures r.Number? ==> 1 <= r.size <= 2
  {
    if src[i] < 0x80 then Number(src[i], 1)
    else if src[i + 1] >= 0x80 then Bad
    else Number((src[i] as int) - 0x80 + (src[i + 1] as int) * 0x80, 2)
  }

  lemma UlebRoundTrip(src: seq<Byte>, i: nat, n: nat)
    requires n <= MAXRUN && i + 2 <= |src| && i + |Uleb(n)| <= |src| && src[i..i + |Uleb(n)|] == Uleb(n)
    ensures UnUleb(src, i) == Number(n, |Uleb(n)|)
  {
    var s := src[i..i + |Uleb(n)|];
    assert src[i] == s[0];
    if n >= 0x80 { assert src[i + 1] == s[1]; }
  }

  // ----- runs -----

  /** Number of positions from i on at which the two pages agree. */
  function EqualRun(prev: Page, cur: Page, i: nat): (r: nat)
    requires |prev| == |cur| && i <= |prev|
    ensures i + r <= |prev| && (forall k :: i <= k < i + r ==> prev[k] == cur[k])
    ensures (i + r < |prev| ==> prev[i + r] != cur[i + r])
    decreases |prev| - i
  {
    if i < |prev| && prev[i] == cur[i] then 1 + EqualRun(prev, cur, i + 1) else 0
  }

  /** Number of positions from i on at which they differ. */
  function DiffRun(prev: Page, cur: Page, i: nat): (r: nat)
    requires |prev| == |cur| && i <= |prev|
    ensures i + r <= |prev| && (forall k :: i <= k < i + r ==> prev[k] != cur[k])
    ensures (i + r < |prev| ==> prev[i + r] == cur[i + r])
    decreases |prev| - i
  {
    if i < |prev| && prev[i] != cur[i] then 1 + DiffRun(prev, cur, i + 1) else 0
  }

  /** The delta for the bytes from i on; the last run of equal bytes is left out. */
  function Delta(prev: Page, cur: Page, i: nat): seq<Byte>
    requires |prev| == |cur| <= MAXRUN && i <= |prev|
    decreases |prev| - i
  {
    var j := i + EqualRun(prev, cur, i);
    if j == |prev| then [] else
      var n := DiffRun(prev, cur, j);
      Uleb(j - i) + Uleb(n) + cur[j..j + n] + Delta(prev, cur, j + n)
  }

  /** Decoding from position i of the delta and position d of the page; None if the delta is malformed. */
  function Decode(src: seq<Byte>, i: nat, page: Page, d: nat): (r: Option<Page>)
    requires i <= |src| && d <= |page|
    ensures r.Some? ==> |r.value| == |page|
    decreases |src| - i
  {
    if i == |src| then Some(page)
    else if |src| - i < 2 then None
    else
      var z := UnUleb(src, i);
      if z.Bad? || (i > 0 && z.value == 0) then None
      else if d + z.value > |page| || |src| - (i + z.size) < 2 then None
      else
        var n := UnUleb(src, i + z.size);
        if n.Bad? || n.value == 0 then None
        else
          var i' := i + z.size + n.size;
          var d' := d + z.value;
          if d' + n.value > |page| || i' + n.value > |src| then None
          else Decode(src, i' + n.value, page[..d'] + src[i'..i' + n.value] + page[d' + n.value..], d' + n.value)
  }

  /** One record of the delta: a run of z equal bytes, then the n new bytes v. */
  ghost predicate Record(src: seq<Byte>, i: nat, z: nat, v: seq<Byte>)
    requires z <= MAXRUN && 0 < |v| <= MAXRUN
  {
    var i1 := i + |Uleb(z)|;
    var i2 := i1 + |Uleb(|v|)|;
    i2 + |v| <= |src| && src[i..i1] == Uleb(z) && src[i1..i2] == Uleb(|v|) && src[i2..i2 + |v|] == v
  }

  lemma DecodeUnfolded(src: seq<Byte>, i: nat, page: Page, d: nat)
    requires i + 2 <= |src| && d <= |page|
    ensures var z := UnUleb(src, i);
      Decode(src, i, page, d) ==
        if z.Bad? || (i > 0 && z.value == 0) || d + z.value > |page| || |src| - (i + z.size) < 2 then None else
        var n := UnUleb(src, i + z.size);
        if n.Bad? || n.value == 0 then None else
        var i', d' := i + z.size + n.size, d + z.value;
        if d' + n.value > |page| || i' + n.value > |src| then None
        else Decode(src, i' + n.value, page[..d'] + src[i'..i' + n.value] + page[d' + n.value..], d' + n.value)
  {
    hide UnUleb;
  }

  lemma DecodeRecord(src: seq<Byte>, i: nat, page: Page, d: nat, z: nat, v: seq<Byte>)
    requires z <= MAXRUN && 0 < |v| <= MAXRUN && Record(src, i, z, v)
    requires d + z + |v| <= |page| && (i > 0 ==> z > 0)
    ensures var e := i + |Uleb(z)| + |Uleb(|v|)| + |v|;
      Decode(src, i, page, d) == Decode(src, e, page[..d + z] + v + page[d + z + |v|..], d + z + |v|)
  {
    hide Uleb, UnUleb, Decode;
    UlebRoundTrip(src, i, z);
    UlebRoundTrip(src, i + |Uleb(z)|, |v|);
    UlebLength(z);
    UlebLength(|v|);
    DecodeUnfolded(src, i, page, d);
  }

  lemma UlebLength(n: nat)
    requires n <= MAXRUN
    ensures 1 <= |Uleb(n)| <= 2
  {
  }

  lemma DeltaRecord(src: seq<Byte>, i: nat, z: nat, v: seq<Byte>, rest: seq<Byte>)
    requires z <= MAXRUN && 0 < |v| <= MAXRUN && i <= |src| && src[i..] == Uleb(z) + Uleb(|v|) + v + rest
    ensures Record(src, i, z, v) && src[i + |Uleb(z)| + |Uleb(|v|)| + |v|..] == rest
  {
    hide Uleb;
    var s := src[i..];
    var n1 := |Uleb(z)|;
    var n2 := n1 + |Uleb(|v|)|;
    assert src[i..i + n1] == s[..n1] && src[i + n1..i + n2] == s[n1..n2];
    assert src[i + n2..i + n2 + |v|] == s[n2..n2 + |v|] && src[i + n2 + |v|..] == s[n2 + |v|..];
  }

  lemma DeltaUnfolded(prev: Page, cur: Page, k: nat)
    requires |prev| == |cur| <= MAXRUN && k <= |prev|
    ensures var j := k + EqualRun(prev, cur, k);
      Delta(prev, cur, k) == if j == |prev| then [] else
        var n := DiffRun(prev, cur, j);
        Uleb(j - k) + Uleb(n) + cur[j..j + n] + Delta(prev, cur, j + n)
  {
  }

  lemma DecodeEnd(src: seq<Byte>, i: nat, page: Page, d: nat)
    requires i == |src| && d <= |page|
    ensures Decode(src, i, page, d) == Some(page)
  {
  }

  lemma PageStep(prev: Page, cur: Page, k: nat, j: nat, n: nat)
    requires |prev| == |cur| && k <= j && j + n <= |prev| && forall x :: k <= x < j ==> prev[x] == cur[x]
    ensures var page := cur[..k] + prev[k..]; page[..j] + cur[j..j + n] + page[j + n..] == cur[..j + n] + prev[j + n..]
  {
  }

  /** After the bytes before k have been decoded, the rest of the delta turns the rest of the old page into the new
      one. */
  lemma {:induction false} DecodeRest(prev: Page, cur: Page, k: nat, src: seq<Byte>, i: nat)
    requires |prev| == |cur| <= MAXRUN && k <= |prev| && i <= |src| && src[i..] == Delta(prev, cur, k)
    requires i > 0 && k < |prev| ==> prev[k] == cur[k]
    ensures Decode(src, i, cur[..k] + prev[k..], k) == Some(cur)
    decreases |prev| - k
  {
    hide Uleb, Decode, EqualRun, DiffRun, Delta;
    var j := k + EqualRun(prev, cur, k);
    if j == |prev| {
      DeltaUnfolded(prev, cur, k);
      var page := cur[..k] + prev[k..];
      assert page == cur;
      DecodeEnd(src, i, page, k);
    } else {
      var n := DiffRun(prev, cur, j);
      DecodeStep(prev, cur, k, src, i, j, n);
      DecodeRest(prev, cur, j + n, src, i + |Uleb(j - k)| + |Uleb(n)| + n);
    }
  }

  /** One record of the delta. */
  lemma DecodeStep(prev: Page, cur: Page, k: nat, src: seq<Byte>, i: nat, j: nat, n: nat)
    requires |prev| == |cur| <= MAXRUN && k <= |prev| && i <= |src| && src[i..] == Delta(prev, cur, k)
    requires i > 0 && k < |prev| ==> prev[k] == cur[k]
    requires j == k + EqualRun(prev, cur, k) < |prev| && n == DiffRun(prev, cur, j)
    ensures var e := i + |Uleb(j - k)| + |Uleb(n)| + n;
      && e <= |src| && src[e..] == Delta(prev, cur, j + n)
      && Decode(src, i, cur[..k] + prev[k..], k) == Decode(src, e, cur[..j + n] + prev[j + n..], j + n)
  {
    hide Uleb, Record, Decode, EqualRun, DiffRun, Delta;
    DeltaUnfolded(prev, cur, k);
    var v := cur[j..j + n];
    DeltaRecord(src, i, j - k, v, Delta(prev, cur, j + n));
    DecodeRecord(src, i, cur[..k] + prev[k..], k, j - k, v);
    PageStep(prev, cur, k, j, n);
  }

  /** Decoding the delta onto the old page gives the new page, for all pages. */
  lemma RoundTrip(prev: Page, cur: Page)
    requires |prev| == |cur| <= MAXRUN
    ensures Decode(Delta(prev, cur, 0), 0, prev, 0) == Some(cur)
  {
    var src := Delta(prev, cur, 0);
    assert src[0..] == src;
    assert cur[..0] + prev[0..] == prev;
    DecodeRest(prev, cur, 0, src, 0);
  }

  /** The delta is empty exactly if nothing has changed. */
  lemma EmptyDelta(prev: Page, cur: Page)
    requires |prev| == |cur| <= MAXRUN
    ensures Delta(prev, cur, 0) == [] <==> prev == cur
  {
    if EqualRun(prev, cur, 0) == |prev| { assert prev == cur; }
  }

  // ----- the loops of the encoder and the decoder -----

  const WORD: nat := 8

  const MASK: bv64 := 0x0101010101010101

  /** The test for the end of a run of changed bytes, on the xor of two words. */
  predicate ZeroByte(x: bv64) {
    (x - MASK) & !x & (MASK << 7) != 0
  }

  lemma ZeroByteTest(x: bv64)
    ensures ZeroByte(x) <==>
      || x & 0xFF == 0 || x & 0xFF00 == 0 || x & 0xFF0000 == 0 || x & 0xFF000000 == 0
      || x & 0xFF00000000 == 0 || x & 0xFF0000000000 == 0 || x & 0xFF000000000000 == 0 || x & 0xFF00000000000000 == 0
  {
  }

  function PowerOf2(n: nat): nat {
    if n == 0 then 1 else 2 * PowerOf2(n - 1)
  }

  /** The n low bits of a number, lowest first. */
  function LowBits(b: nat, n: nat): (l: seq<bool>)
    ensures |l| == n
  {
    if n == 0 then [] else [b % 2 == 1] + LowBits(b / 2, n - 1)
  }

  lemma {:induction false} LowBitsSame(a: nat, b: nat, n: nat)
    requires a < PowerOf2(n) && b < PowerOf2(n)
    ensures LowBits(a, n) == LowBits(b, n) <==> a == b
  {
    if n > 0 {
      LowBitsSame(a / 2, b / 2, n - 1);
      assert LowBits(a, n)[1..] == LowBits(a / 2, n - 1) && LowBits(b, n)[1..] == LowBits(b / 2, n - 1);
      assert LowBits(a, n)[0] == (a % 2 == 1) && LowBits(b, n)[0] == (b % 2 == 1);
    }
  }

  function Flag(f: bool): bv64 {
    if f then 1 else 0
  }

  function Gather(f0: bool, f1: bool, f2: bool, f3: bool, f4: bool, f5: bool, f6: bool, f7: bool): bv64 {
    Flag(f0) | (Flag(f1) << 1) | (Flag(f2) << 2) | (Flag(f3) << 3)
    | (Flag(f4) << 4) | (Flag(f5) << 5) | (Flag(f6) << 6) | (Flag(f7) << 7)
  }

  /** The bits of x under a mask are not all zero. */
  predicate Under(x: bv64, mask: bv64) {
    x & mask != 0
  }

  lemma LowFlags(f0: bool, f1: bool, f2: bool, f3: bool, f4: bool, f5: bool, f6: bool, f7: bool)
    ensures var x := Gather(f0, f1, f2, f3, f4, f5, f6, f7);
      (Under(x, 1) <==> f0) && (Under(x, 2) <==> f1) && (Under(x, 4) <==> f2) && (Under(x, 8) <==> f3) && x <= 0xFF
  {
  }

  lemma HighFlags(f0: bool, f1: bool, f2: bool, f3: bool, f4: bool, f5: bool, f6: bool, f7: bool)
    ensures var x := Gather(f0, f1, f2, f3, f4, f5, f6, f7);
      (Under(x, 16) <==> f4) && (Under(x, 32) <==> f5) && (Under(x, 64) <==> f6) && (Under(x, 128) <==> f7)
  {
  }

  lemma GatherSame(f0: bool, f1: bool, f2: bool, f3: bool, f4: bool, f5: bool, f6: bool, f7: bool,
                   g0: bool, g1: bool, g2: bool, g3: bool, g4: bool, g5: bool, g6: bool, g7: bool)
    ensures Gather(f0, f1, f2, f3, f4, f5, f6, f7) == Gather(g0, g1, g2, g3, g4, g5, g6, g7) <==>
      f0 == g0 && f1 == g1 && f2 == g2 && f3 == g3 && f4 == g4 && f5 == g5 && f6 == g6 && f7 == g7
    ensures Gather(f0, f1, f2, f3, f4, f5, f6, f7) <= 0xFF
  {
    hide Gather, Under;
    LowFlags(f0, f1, f2, f3, f4, f5, f6, f7);
    HighFlags(f0, f1, f2, f3, f4, f5, f6, f7);
    LowFlags(g0, g1, g2, g3, g4, g5, g6, g7);
    HighFlags(g0, g1, g2, g3, g4, g5, g6, g7);
  }

  function FromBits(l: seq<bool>): bv64
    requires |l| == 8
  {
    Gather(l[0], l[1], l[2], l[3], l[4], l[5], l[6], l[7])
  }

  lemma ListSame(l: seq<bool>, m: seq<bool>)
    requires |l| == |m| == 8
    ensures l == m <==> && l[0] == m[0] && l[1] == m[1] && l[2] == m[2] && l[3] == m[3]
                        && l[4] == m[4] && l[5] == m[5] && l[6] == m[6] && l[7] == m[7]
  {
    if && l[0] == m[0] && l[1] == m[1] && l[2] == m[2] && l[3] == m[3]
       && l[4] == m[4] && l[5] == m[5] && l[6] == m[6] && l[7] == m[7] {
      forall k | 0 <= k < 8 ensures l[k] == m[k] {
      }
    }
  }

  lemma FromBitsSame(l: seq<bool>, m: seq<bool>)
    requires |l| == |m| == 8
    ensures (FromBits(l) == FromBits(m) <==> l == m) && FromBits(l) <= 0xFF
  {
    hide Gather;
    ListSame(l, m);
    GatherSame(l[0], l[1], l[2], l[3], l[4], l[5], l[6], l[7], m[0], m[1], m[2], m[3], m[4], m[5], m[6], m[7]);
  }

  /** A byte as it is in a register. */
  function Bits(b: Byte): bv64 {
    FromBits(LowBits(b, 8))
  }

  lemma BitsSame(a: Byte, b: Byte)
    ensures (Bits(a) == Bits(b) <==> a == b) && Bits(a) <= 0xFF && Bits(b) <= 0xFF
  {
    hide LowBits, FromBits;
    assert PowerOf2(8) == 256;
    LowBitsSame(a, b, 8);
    FromBitsSame(LowBits(a, 8), LowBits(b, 8));
    FromBitsSame(LowBits(b, 8), LowBits(a, 8));
  }

  /** Eight bytes, lowest first. */
  datatype Eight = Eight(b0: bv64, b1: bv64, b2: bv64, b3: bv64, b4: bv64, b5: bv64, b6: bv64, b7: bv64) {
    predicate Small() {
      b0 <= 0xFF && b1 <= 0xFF && b2 <= 0xFF && b3 <= 0xFF && b4 <= 0xFF && b5 <= 0xFF && b6 <= 0xFF && b7 <= 0xFF
    }

    function Join(): bv64 {
      b0 | (b1 << 8) | (b2 << 16) | (b3 << 24) | (b4 << 32) | (b5 << 40) | (b6 << 48) | (b7 << 56)
    }
  }

  lemma LowLanes(p: Eight, c: Eight)
    requires p.Small() && c.Small()
    ensures var x := p.Join() ^ c.Join();
      && (x & 0xFF == 0 <==> p.b0 == c.b0) && (x & 0xFF00 == 0 <==> p.b1 == c.b1)
      && (x & 0xFF0000 == 0 <==> p.b2 == c.b2) && (x & 0xFF000000 == 0 <==> p.b3 == c.b3)
  {
  }

  lemma HighLanes(p: Eight, c: Eight)
    requires p.Small() && c.Small()
    ensures var x := p.Join() ^ c.Join();
      && (x & 0xFF00000000 == 0 <==> p.b4 == c.b4) && (x & 0xFF0000000000 == 0 <==> p.b5 == c.b5)
      && (x & 0xFF000000000000 == 0 <==> p.b6 == c.b6) && (x & 0xFF00000000000000 == 0 <==> p.b7 == c.b7)
  {
  }

  function EightAt(page: Page, i: nat): Eight
    requires i + WORD <= |page|
  {
    Eight(Bits(page[i]), Bits(page[i + 1]), Bits(page[i + 2]), Bits(page[i + 3]),
          Bits(page[i + 4]), Bits(page[i + 5]), Bits(page[i + 6]), Bits(page[i + 7]))
  }

  /** The word at i, as a little-endian machine loads it. */
  function WordAt(page: Page, i: nat): bv64
    requires i + WORD <= |page|
  {
    EightAt(page, i).Join()
  }

  /** The words at i have a byte in common. */
  ghost predicate CommonByte(prev: Page, cur: Page, i: nat)
    requires |prev| == |cur| && i + WORD <= |prev|
  {
    exists k :: i <= k < i + WORD && prev[k] == cur[k]
  }

  lemma CommonIsOneOf(prev: Page, cur: Page, i: nat)
    requires |prev| == |cur| && i + WORD <= |prev|
    ensures CommonByte(prev, cur, i) <==>
      || prev[i] == cur[i] || prev[i + 1] == cur[i + 1] || prev[i + 2] == cur[i + 2] || prev[i + 3] == cur[i + 3]
      || prev[i + 4] == cur[i + 4] || prev[i + 5] == cur[i + 5] || prev[i + 6] == cur[i + 6] || prev[i + 7]
          == cur[i + 7]
  {
    if CommonByte(prev, cur, i) {
      var k :| i <= k < i + WORD && prev[k] == cur[k];
      assert k == i || k == i + 1 || k == i + 2 || k == i + 3 || k == i + 4 || k == i + 5 || k == i + 6 || k == i + 7;
    }
  }

  /** The test of the xor of two words tells whether they have a byte in common. */
  lemma WordTest(prev: Page, cur: Page, i: nat)
    requires |prev| == |cur| && i + WORD <= |prev|
    ensures ZeroByte(WordAt(prev, i) ^ WordAt(cur, i)) <==> CommonByte(prev, cur, i)
  {
    hide ZeroByte, CommonByte, Bits, Eight.Join;
    var p, c := EightAt(prev, i), EightAt(cur, i);
    forall k | i <= k < i + WORD
      ensures (Bits(prev[k]) == Bits(cur[k]) <==> prev[k] == cur[k]) && Bits(prev[k]) <= 0xFF && Bits(cur[k]) <= 0xFF
    {
      BitsSame(prev[k], cur[k]);
    }
    LowLanes(p, c);
    HighLanes(p, c);
    ZeroByteTest(p.Join() ^ c.Join());
    CommonIsOneOf(prev, cur, i);
  }

  lemma {:induction false} EqualRunFrom(prev: Page, cur: Page, i: nat, j: nat)
    requires |prev| == |cur| && i <= j <= |prev| && forall k :: i <= k < j ==> prev[k] == cur[k]
    ensures i + EqualRun(prev, cur, i) == j + EqualRun(prev, cur, j)
    decreases j - i
  {
    if i < j { EqualRunFrom(prev, cur, i + 1, j); }
  }

  lemma {:induction false} DiffRunFrom(prev: Page, cur: Page, i: nat, j: nat)
    requires |prev| == |cur| && i <= j <= |prev| && forall k :: i <= k < j ==> prev[k] != cur[k]
    ensures i + DiffRun(prev, cur, i) == j + DiffRun(prev, cur, j)
    decreases j - i
  {
    if i < j { DiffRunFrom(prev, cur, i + 1, j); }
  }

  lemma SameWord(prev: Page, cur: Page, i: nat)
    requires |prev| == |cur| && i + WORD <= |prev| && prev[i..i + WORD] == cur[i..i + WORD]
    ensures forall k :: i <= k < i + WORD ==> prev[k] == cur[k]
  {
    assert forall k :: i <= k < i + WORD ==> prev[k] == prev[i..i + WORD][k - i] && cur[k] == cur[i..i + WORD][k - i];
  }

  /** The end of the run of equal bytes, bytewise up to a word boundary and then a word at a time. */
  method EndOfEqual(prev: Page, cur: Page, start: nat) returns (i: nat)
    requires |prev| == |cur| && start <= |prev|
    ensures i == start + EqualRun(prev, cur, start)
  {
    hide EqualRun;
    i := start;
    var res := (|prev| - i) % WORD;
    ghost var words := (|prev| - i) / WORD;
    while res > 0 && prev[i] == cur[i]
      invariant start <= i <= |prev| && 0 <= res <= |prev| - i && |prev| - i - res == WORD * words
      invariant forall k :: start <= k < i ==> prev[k] == cur[k]
    {
      i := i + 1;
      res := res - 1;
    }
    if res == 0 {
      while i < |prev| && prev[i..i + WORD] == cur[i..i + WORD]
        invariant start <= i <= |prev| && |prev| - i == WORD * words
        invariant forall k :: start <= k < i ==> prev[k] == cur[k]
      {
        SameWord(prev, cur, i);
        i, words := i + WORD, words - 1;
      }
      while i < |prev| && prev[i] == cur[i]
        invariant start <= i <= |prev|
        invariant forall k :: start <= k < i ==> prev[k] == cur[k]
      {
        i := i + 1;
      }
    }
    EqualRunFrom(prev, cur, start, i);
  }

  /** The byte of the word at which the pages agree. */
  method EndInWord(prev: Page, cur: Page, start: nat) returns (i: nat)
    requires |prev| == |cur| && start + WORD <= |prev| && CommonByte(prev, cur, start)
    ensures start <= i < start + WORD && prev[i] == cur[i] && forall k :: start <= k < i ==> prev[k] != cur[k]
  {
    ghost var k :| start <= k < start + WORD && prev[k] == cur[k];
    i := start;
    while prev[i] != cur[i]
      invariant start <= i <= k
      invariant forall k :: start <= k < i ==> prev[k] != cur[k]
      decreases k - i
    {
      i := i + 1;
    }
  }

  lemma NoneInWord(prev: Page, cur: Page, i: nat)
    requires |prev| == |cur| && i + WORD <= |prev| && !CommonByte(prev, cur, i)
    ensures forall k :: i <= k < i + WORD ==> prev[k] != cur[k]
  {
  }

  method EndOfDiff(prev: Page, cur: Page, start: nat) returns (i: nat)
    requires |prev| == |cur| && start <= |prev|
    ensures i == start + DiffRun(prev, cur, start)
  {
    hide ZeroByte, WordAt, CommonByte, DiffRun;
    i := start;
    var res := (|prev| - i) % WORD;
    ghost var words := (|prev| - i) / WORD;
    while res > 0 && prev[i] != cur[i]
      invariant start <= i <= |prev| && 0 <= res <= |prev| - i && |prev| - i - res == WORD * words
      invariant forall k :: start <= k < i ==> prev[k] != cur[k]
    {
      i := i + 1;
      res := res - 1;
    }
    if res == 0 {
      while i < |prev|
        invariant start <= i <= |prev| && |prev| - i == WORD * words
        invariant forall k :: start <= k < i ==> prev[k] != cur[k]
      {
        WordTest(prev, cur, i);
        if ZeroByte(WordAt(prev, i) ^ WordAt(cur, i)) {
          i := EndInWord(prev, cur, i);
          break;
        } else {
          NoneInWord(prev, cur, i);
          i, words := i + WORD, words - 1;
        }
      }
    }
    DiffRunFrom(prev, cur, start, i);
  }

  /** 'uleb128_encode_small'. */
  method PutUleb(dst: array<Byte>, d: nat, n: nat) returns (e: nat)
    requires n <= MAXRUN && d + 2 <= dst.Length
    modifies dst
    ensures e == d + |Uleb(n)| && dst[..e] == old(dst[..d]) + Uleb(n)
  {
    if n < 0x80 {
      dst[d] := n;
      e := d + 1;
    } else {
      dst[d] := n % 0x80 + 0x80;
      dst[d + 1] := n / 0x80;
      e := d + 2;
    }
  }

  method PutBytes(dst: array<Byte>, d: nat, v: seq<Byte>) returns (e: nat)
    requires d + |v| <= dst.Length
    modifies dst
    ensures e == d + |v| && dst[..e] == old(dst[..d]) + v
  {
    var k := 0;
    while k < |v|
      invariant 0 <= k <= |v| && dst[..d + k] == old(dst[..d]) + v[..k]
    {
      dst[d + k] := v[k];
      k := k + 1;
    }
    assert v[..k] == v;
    e := d + k;
  }

  /** A run of z equal bytes and the changed bytes v behind it; -1 if the buffer is too small. */
  method PutRecord(dst: array<Byte>, d: nat, z: nat, v: seq<Byte>) returns (e: int)
    requires z <= MAXRUN && |v| <= MAXRUN && d + 2 <= dst.Length
    modifies dst
    ensures e == -1 ==> d + |Uleb(z) + Uleb(|v|) + v| + 2 > dst.Length
    ensures e != -1 ==> 0 <= e <= dst.Length && dst[..e] == old(dst[..d]) + (Uleb(z) + Uleb(|v|) + v)
  {
    hide Uleb;
    ghost var before := dst[..d];
    e := PutUleb(dst, d, z);
    if e + 2 > dst.Length { return -1; }
    e := PutUleb(dst, e, |v|);
    if e + |v| > dst.Length { return -1; }
    e := PutBytes(dst, e, v);
    assert before + Uleb(z) + Uleb(|v|) + v == before + (Uleb(z) + Uleb(|v|) + v);
  }

  lemma DeltaStep(prev: Page, cur: Page, i: nat, j: nat, k: nat, before: seq<Byte>)
    requires |prev| == |cur| <= MAXRUN && i <= |prev| && j == i + EqualRun(prev, cur, i) < |prev|
    requires k == j + DiffRun(prev, cur, j)
    ensures var record := Uleb(j - i) + Uleb(k - j) + cur[j..k];
      before + Delta(prev, cur, i) == (before + record) + Delta(prev, cur, k)
  {
    hide Uleb, EqualRun, DiffRun, Delta;
    DeltaUnfolded(prev, cur, i);
    var record, rest := Uleb(j - i) + Uleb(k - j) + cur[j..k], Delta(prev, cur, k);
    assert before + (record + rest) == (before + record) + rest;
  }

  lemma DeltaEnds(prev: Page, cur: Page, i: nat, before: seq<Byte>)
    requires |prev| == |cur| <= MAXRUN && i <= |prev| && i + EqualRun(prev, cur, i) == |prev|
    ensures before + Delta(prev, cur, i) == before
  {
    DeltaUnfolded(prev, cur, i);
  }

  /** 'xbzrle_encode_buffer': the length of the delta, or -1 if the buffer is too small for it. */
  method EncodeBuffer(prev: Page, cur: Page, dst: array<Byte>) returns (r: int)
    requires |prev| == |cur| <= MAXRUN
    modifies dst
    ensures r == -1 || 0 <= r <= dst.Length
    ensures r >= 0 ==> dst[..r] == Delta(prev, cur, 0)
    ensures r == -1 ==> |Delta(prev, cur, 0)| + 2 > dst.Length
  {
    hide Uleb, EqualRun, DiffRun, Delta;
    ghost var all := Delta(prev, cur, 0);
    var d, i := 0, 0;
    while i < |prev|
      invariant 0 <= i <= |prev| && 0 <= d <= dst.Length
      invariant dst[..d] + Delta(prev, cur, i) == all
    {
      if d + 2 > dst.Length { return -1; }
      ghost var before := dst[..d];
      var j := EndOfEqual(prev, cur, i);
      if j == |prev| {
        DeltaEnds(prev, cur, i, before);
        return if j - i == |prev| then 0 else d;
      }
      var k := EndOfDiff(prev, cur, j);
      DeltaStep(prev, cur, i, j, k, before);
      var e := PutRecord(dst, d, j - i, cur[j..k]);
      if e == -1 { return -1; }
      d, i := e, k;
    }
    DeltaEnds(prev, cur, i, dst[..d]);
    return d;
  }

  /** 'xbzrle_decode_buffer': decodes onto a page, in place; on a malformed delta the page may be half decoded. */
  method DecodeBuffer(src: seq<Byte>, page: array<Byte>) returns (r: int)
    modifies page
    ensures r == -1 <==> Decode(src, 0, old(page[..]), 0).None?
    ensures r != -1 ==> 0 <= r <= page.Length && page[..] == Decode(src, 0, old(page[..]), 0).value
  {
    hide UnUleb, Decode;
    var i, d := 0, 0;
    while i < |src|
      invariant 0 <= i <= |src| && 0 <= d <= page.Length
      invariant Decode(src, i, page[..], d) == Decode(src, 0, old(page[..]), 0)
    {
      if |src| - i < 2 {
        DecodeShort(src, i, page[..], d);
        return -1;
      }
      DecodeUnfolded(src, i, page[..], d);
      var z := UnUleb(src, i);
      if z.Bad? || (i > 0 && z.value == 0) { return -1; }
      if d + z.value > page.Length { return -1; }
      if |src| - (i + z.size) < 2 { return -1; }
      var n := UnUleb(src, i + z.size);
      if n.Bad? || n.value == 0 { return -1; }
      var i1, d1 := i + z.size + n.size, d + z.value;
      if d1 + n.value > page.Length || i1 + n.value > |src| { return -1; }
      CopyInto(page, d1, src[i1..i1 + n.value]);
      d := d1 + n.value;
      i := i1 + n.value;
    }
    DecodeEnd(src, i, page[..], d);
    return d;
  }

  lemma DecodeShort(src: seq<Byte>, i: nat, page: Page, d: nat)
    requires i + 1 == |src| && d <= |page|
    ensures Decode(src, i, page, d) == None
  {
  }

  method CopyInto(page: array<Byte>, d: nat, v: seq<Byte>)
    requires d + |v| <= page.Length
    modifies page
    ensures page[..] == old(page[..d]) + v + old(page[d + |v|..])
  {
    var k := 0;
    while k < |v|
      invariant 0 <= k <= |v|
      invariant forall x :: d <= x < d + k ==> page[x] == v[x - d]
      invariant forall x :: 0 <= x < page.Length && !(d <= x < d + k) ==> page[x] == old(page[x])
    {
      page[d + k] := v[k];
      k := k + 1;
    }
  }
}
