/** Character sets as lpcode.c stores them: 32 bytes, one bit for each character. */
module CharsetBits {
  import opened Common
  import opened PegTree
  import opened Layout

  const CHARSETSIZE: nat := 32
  const BITSPERCHAR: nat := 8

  type Bitmap = b: seq<bv8> | |b| == 32 witness seq(32, _ => 0)

  function Mask(k: nat): bv8
    requires k < 8
  {
    match k
    case 0 => 0x01 case 1 => 0x02 case 2 => 0x04 case 3 => 0x08
    case 4 => 0x10 case 5 => 0x20 case 6 => 0x40 case 7 => 0x80
  }

  predicate Bit(b: bv8, k: nat)
    requires k < 8
  {
    b & Mask(k) != 0
  }

  /** 'testchar'. */
  predicate TestChar(bits: Bitmap, c: Byte) {
    Bit(bits[c / 8], c % 8)
  }

  /** The set a bitmap stands for. */
  ghost function SetOf(bits: Bitmap): Charset {
    set c: Byte | c in FULL && TestChar(bits, c)
  }

  lemma NoBits(b: bv8)
    ensures b == 0 <==> forall k :: 0 <= k < 8 ==> !Bit(b, k)
  {
    if b != 0 {
      assert || Bit(b, 0) || Bit(b, 1) || Bit(b, 2) || Bit(b, 3)
             || Bit(b, 4) || Bit(b, 5) || Bit(b, 6) || Bit(b, 7);
    }
  }

  lemma AllBits(b: bv8)
    ensures b == 0xFF <==> forall k :: 0 <= k < 8 ==> Bit(b, k)
  {
    if b != 0xFF {
      assert || !Bit(b, 0) || !Bit(b, 1) || !Bit(b, 2) || !Bit(b, 3)
             || !Bit(b, 4) || !Bit(b, 5) || !Bit(b, 6) || !Bit(b, 7);
    }
  }

  /** A byte with more than one bit, or exactly one. */
  lemma OneBit(b: bv8)
    requires b != 0
    ensures b & (b - 1) == 0 <==> exists k :: 0 <= k < 8 && b == Mask(k)
  {
    if b & (b - 1) == 0 {
      assert || b == Mask(0) || b == Mask(1) || b == Mask(2) || b == Mask(3)
             || b == Mask(4) || b == Mask(5) || b == Mask(6) || b == Mask(7);
    }
  }

  lemma MaskBits(k: nat, j: nat)
    requires k < 8 && j < 8
    ensures Bit(Mask(k), j) <==> j == k
  {
  }

  /** The bit of a one-bit byte, found by halving. */
  method BitIndex(byte: bv8) returns (k: nat)
    requires exists j :: 0 <= j < 8 && byte == Mask(j)
    ensures k < 8 && byte == Mask(k)
  {
    var b := byte;
    k := 0;
    if b & 0xF0 != 0 { k := k + 4; b := b >> 4; }
    if b & 0x0C != 0 { k := k + 2; b := b >> 2; }
    if b & 0x02 != 0 { k := k + 1; }
  }

  /** A set with two members, or with a member and a non-member, is neither empty nor full nor a singleton. */
  lemma IsOther(bits: Bitmap, x: Byte, y: Byte, z: Byte)
    requires TestChar(bits, x) && TestChar(bits, y) && x != y && !TestChar(bits, z)
    ensures CharsetType(SetOf(bits)) == OtherSet
  {
    CharsetTypeMeans(SetOf(bits));
    assert x in SetOf(bits) && y in SetOf(bits) && z !in SetOf(bits) && z in FULL;
  }

  lemma InByte(bits: Bitmap, i: nat, k: nat) returns (c: Byte)
    requires i < 32 && k < 8
    ensures c == 8 * i + k && TestChar(bits, c) == Bit(bits[i], k)
  {
    c := 8 * i + k;
  }

  /** Whether the first i bytes hold no bit, one bit (in byte 'candidate'), or all bits. */
  ghost predicate Scanned(bits: Bitmap, i: nat, count: nat, candidate: int)
    requires i <= 32
  {
    || (count == 0 && forall j :: 0 <= j < i ==> bits[j] == 0)
    || (count == 8 * i && i > 0 && forall j :: 0 <= j < i ==> bits[j] == 0xFF)
    || (count == 1 && 0 <= candidate < i && bits[candidate] != 0 && bits[candidate] & (bits[candidate] - 1) == 0
        && forall j :: 0 <= j < i && j != candidate ==> bits[j] == 0)
  }

  /** 'charsettype': classifies a set without ever listing it. */
  method ClassifySet(bits: Bitmap) returns (kind: SetKind)
    ensures kind == CharsetType(SetOf(bits))
  {
    var count: nat := 0;
    var candidate := -1;
    var i := 0;
    while i < CHARSETSIZE
      invariant 0 <= i <= CHARSETSIZE
      invariant Scanned(bits, i, count, candidate)
    {
      var b := bits[i];
      if b == 0 {
        if count > 1 {
          MixedBytes(bits, 0, i);
          return OtherSet;
        }
      } else if b == 0xFF {
        if count < i * BITSPERCHAR {
          MixedBytes(bits, i, 0);
          return OtherSet;
        }
        count := count + BITSPERCHAR;
      } else if b & (b - 1) == 0 {
        if count > 0 {
          OneMore(bits, i, count, candidate);
          return OtherSet;
        }
        count := 1;
        candidate := i;
      } else {
        ManyBits(bits, i);
        return OtherSet;
      }
      i := i + 1;
    }
    CharsetTypeMeans(SetOf(bits));
    if count == 0 {
      AllEmpty(bits);
      return EmptySet;
    } else if count == 1 {
      OneBit(bits[candidate]);
      var k := BitIndex(bits[candidate]);
      OnlyOne(bits, candidate, k);
      return Singleton(candidate * BITSPERCHAR + k);
    } else {
      AllFull(bits);
      return FullSet;
    }
  }

  /** A full byte and one that is not: two members and a non-member. */
  lemma MixedBytes(bits: Bitmap, full: nat, empty: nat)
    requires full < 32 && empty < 32 && bits[full] == 0xFF && bits[empty] != 0xFF
    ensures CharsetType(SetOf(bits)) == OtherSet
  {
    var x := InByte(bits, full, 0);
    var y := InByte(bits, full, 1);
    AllBits(bits[full]);
    AllBits(bits[empty]);
    var k :| 0 <= k < 8 && !Bit(bits[empty], k);
    var z := InByte(bits, empty, k);
    IsOther(bits, x, y, z);
  }

  /** A further bit after a single one, or after full bytes. */
  lemma OneMore(bits: Bitmap, i: nat, count: nat, candidate: int)
    requires i < 32 && Scanned(bits, i, count, candidate) && count > 0
    requires bits[i] != 0 && bits[i] != 0xFF && bits[i] & (bits[i] - 1) == 0
    ensures CharsetType(SetOf(bits)) == OtherSet
  {
    var other := if count == 1 && 0 <= candidate < i && bits[candidate] != 0 then candidate else 0;
    NoBits(bits[other]);
    var k :| 0 <= k < 8 && Bit(bits[other], k);
    var x := InByte(bits, other, k);
    NoBits(bits[i]);
    var m :| 0 <= m < 8 && Bit(bits[i], m);
    var y := InByte(bits, i, m);
    AllBits(bits[i]);
    var j :| 0 <= j < 8 && !Bit(bits[i], j);
    var z := InByte(bits, i, j);
    IsOther(bits, x, y, z);
  }

  lemma ManyBits(bits: Bitmap, i: nat)
    requires i < 32 && bits[i] != 0 && bits[i] != 0xFF && bits[i] & (bits[i] - 1) != 0
    ensures CharsetType(SetOf(bits)) == OtherSet
  {
    NoBits(bits[i]);
    var k :| 0 <= k < 8 && Bit(bits[i], k);
    var x := InByte(bits, i, k);
    OneBit(bits[i]);
    var rest := bits[i] & !Mask(k);
    assert rest != 0 by { assert bits[i] != Mask(k); }
    NoBits(rest);
    var m :| 0 <= m < 8 && Bit(rest, m);
    RestBit(bits[i], k, m);
    var y := InByte(bits, i, m);
    AllBits(bits[i]);
    var j :| 0 <= j < 8 && !Bit(bits[i], j);
    var z := InByte(bits, i, j);
    IsOther(bits, x, y, z);
  }

  lemma RestBit(b: bv8, k: nat, m: nat)
    requires k < 8 && m < 8 && Bit(b & !Mask(k), m)
    ensures Bit(b, m) && m != k
  {
  }

  lemma AllEmpty(bits: Bitmap)
    requires forall j :: 0 <= j < 32 ==> bits[j] == 0
    ensures CharsetType(SetOf(bits)) == EmptySet
  {
    CharsetTypeMeans(SetOf(bits));
    forall c: Byte ensures !TestChar(bits, c) { NoBits(bits[c / 8]); }
    assert SetOf(bits) == {};
  }

  lemma AllFull(bits: Bitmap)
    requires forall j :: 0 <= j < 32 ==> bits[j] == 0xFF
    ensures CharsetType(SetOf(bits)) == FullSet
  {
    CharsetTypeMeans(SetOf(bits));
    forall c: Byte ensures TestChar(bits, c) { AllBits(bits[c / 8]); }
    assert SetOf(bits) == FULL;
    var x: Byte, y: Byte := 0, 1;
    assert x in FULL && y in FULL;
  }

  lemma OnlyOne(bits: Bitmap, i: nat, k: nat)
    requires i < 32 && k < 8 && bits[i] == Mask(k)
    requires forall j :: 0 <= j < 32 && j != i ==> bits[j] == 0
    ensures CharsetType(SetOf(bits)) == Singleton(8 * i + k)
  {
    CharsetTypeMeans(SetOf(bits));
    var d: Byte := 8 * i + k;
    forall c: Byte ensures TestChar(bits, c) <==> c == d {
      if c / 8 == i { MaskBits(k, c % 8); } else { NoBits(bits[c / 8]); }
    }
    assert SetOf(bits) == {d};
    var e: Byte := if d == 0 then 1 else 0;
    assert e in FULL && e !in SetOf(bits);
  }
}
