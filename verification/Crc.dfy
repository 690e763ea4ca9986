/**
 * The 32-bit frame check sequence of section 8.1.1.6.2 of ITU-T V.42: the shift register that
 * defines it, the table that computes it, and the damage it is certain to detect.
 *
 * A register is a polynomial over GF(2), so exclusive-or is written as addition. The operations
 * on bit-vectors are named functions, so that proofs above them are equational.
 */
module Crc {
  import opened Bytes

  const POLYNOMIAL: bv32 := 0xEDB88320

  function Plus(x: bv32, y: bv32): bv32 { x ^ y }

  function Complement(x: bv32): bv32 { !x }

  function Half(x: bv32): bv32 { x >> 1 }

  predicate Odd(x: bv32) { x & 1 == 1 }

  function LowBit(x: bv32): bv32 { x & 1 }

  function LowByte(x: bv32): bv32 { x & 0xFF }

  function HighBytes(x: bv32): bv32 { x & 0xFFFF_FF00 }

  function DropByte(x: bv32): bv32 { x >> 8 }

  function Tap(x: bv32): bv32 { if Odd(x) then POLYNOMIAL else 0 }

  /** One clock of the reflected shift register. */
  function Clock(r: bv32): bv32 { Plus(Half(r), Tap(r)) }

  function Clocks(r: bv32, n: nat): bv32
    decreases n
  {
    if n == 0 then r else Clocks(Clock(r), n - 1)
  }

  /** The low n bits of b enter the register one at a time, least significant first. */
  function FeedBits(r: bv32, b: bv32, n: nat): bv32
    decreases n
  {
    if n == 0 then r else FeedBits(Clock(Plus(r, LowBit(b))), Half(b), n - 1)
  }

  /** The register holding the number n. */
  function Bits(n: nat): bv32 {
    if n == 0 then 0 else Bits(n - 1) + 1
  }

  function Register(r: bv32, s: bytes): bv32
    decreases |s|
  {
    if s == [] then r else Register(FeedBits(r, Bits(s[0]), 8), s[1..])
  }

  /** Continues the checksum `crc` of earlier bytes over s; a fresh checksum starts from 0. */
  function Update(crc: bv32, s: bytes): bv32 { Complement(Register(Complement(crc), s)) }

  /** The stored form of the checksum of s. */
  function Checksum(s: bytes): u32 { Update(0, s) as int }

  // ----- facts about single bit-vector operations -----

  lemma PlusIsAssociative(a: bv32, b: bv32, c: bv32)
    ensures Plus(Plus(a, b), c) == Plus(a, Plus(b, c))
    ensures Plus(a, b) == Plus(b, a)
  {
    assert (a ^ b) ^ c == a ^ (b ^ c);
  }

  lemma PlusRegroups(a: bv32, b: bv32, p: bv32, q: bv32)
    ensures Plus(Plus(a, p), Plus(b, q)) == Plus(Plus(a, b), Plus(p, q))
  {
    PlusIsAssociative(a, p, Plus(b, q));
    PlusIsAssociative(p, b, q);
    PlusIsAssociative(b, p, q);
    PlusIsAssociative(a, b, Plus(p, q));
  }

  lemma PlusCancels(a: bv32, b: bv32)
    ensures Plus(Plus(a, b), b) == a && Plus(a, a) == 0 && Plus(a, 0) == a && Plus(a, b) == Plus(b, a)
    ensures Plus(a, b) == 0 ==> a == b
  {
    assert (a ^ b) ^ b == a;
    assert a ^ 0 == a && a ^ a == 0;
  }

  lemma ComplementTwice(x: bv32)
    ensures Complement(Complement(x)) == x
  {
  }

  lemma HalfIsLinear(x: bv32, y: bv32)
    ensures Half(Plus(x, y)) == Plus(Half(x), Half(y))
  {
    assert (x ^ y) >> 1 == (x >> 1) ^ (y >> 1);
  }

  lemma OddIsLinear(x: bv32, y: bv32)
    ensures Odd(Plus(x, y)) == (Odd(x) != Odd(y))
  {
    assert (x ^ y) & 1 == (x & 1) ^ (y & 1);
    assert x & 1 == 0 || x & 1 == 1;
    assert y & 1 == 0 || y & 1 == 1;
  }

  lemma LowBitSplits(b: bv32)
    ensures !Odd(Plus(b, LowBit(b))) && Half(Plus(b, LowBit(b))) == Half(b)
  {
    assert (b ^ (b & 1)) & 1 == 0;
    assert (b ^ (b & 1)) >> 1 == b >> 1;
  }

  lemma LowByteSplits(x: bv32)
    ensures x == Plus(LowByte(x), HighBytes(x))
    ensures LowByte(x) < 0x100
  {
    assert x == (x & 0xFF) ^ (x & 0xFFFF_FF00);
  }

  lemma OddOrEven(x: bv32)
    ensures LowBit(x) == if Odd(x) then 1 else 0
  {
  }

  // ----- the register is linear -----

  lemma TapIsLinear(x: bv32, y: bv32)
    ensures Tap(Plus(x, y)) == Plus(Tap(x), Tap(y))
  {
    OddIsLinear(x, y);
    PlusCancels(0, POLYNOMIAL);
    PlusCancels(POLYNOMIAL, 0);
  }

  lemma ClockIsLinear(x: bv32, y: bv32)
    ensures Clock(Plus(x, y)) == Plus(Clock(x), Clock(y))
  {
    HalfIsLinear(x, y);
    TapIsLinear(x, y);
    PlusRegroups(Half(x), Half(y), Tap(x), Tap(y));
  }

  lemma {:induction false} ClocksAreLinear(x: bv32, y: bv32, n: nat)
    ensures Clocks(Plus(x, y), n) == Plus(Clocks(x, n), Clocks(y, n))
    decreases n
  {
    if n > 0 {
      ClockIsLinear(x, y);
      ClocksAreLinear(Clock(x), Clock(y), n - 1);
    }
  }

  // ----- numbers and registers -----

  lemma Successor(x: bv32)
    requires x < 0xFF
    ensures (x + 1) as int == x as int + 1 && x + 1 < 0x100
  {
  }

  lemma SmallValue(x: bv32, n: nat)
    requires x as int == n < 0xFF
    ensures x < 0xFF
  {
  }

  lemma {:induction false} BitsValue(n: nat)
    requires n < 0x100
    ensures Bits(n) as int == n && Bits(n) < 0x100
  {
    if n > 0 {
      BitsValue(n - 1);
      SmallValue(Bits(n - 1), n - 1);
      Successor(Bits(n - 1));
    }
  }

  lemma ValueInjective(x: bv32, y: bv32)
    requires x as int == y as int
    ensures x == y
  {
    assert (x as int) as bv32 == x && (y as int) as bv32 == y;
  }

  // ----- bit-serial input is byte-parallel input -----

  function Halves(b: bv32, n: nat): bv32
    decreases n
  {
    if n == 0 then b else Halves(Half(b), n - 1)
  }

  predicate EvenFor(b: bv32, n: nat)
    decreases n
  {
    n == 0 || (!Odd(b) && EvenFor(Half(b), n - 1))
  }

  lemma EvenClock(y: bv32)
    requires !Odd(y)
    ensures Clock(y) == Half(y)
  {
    PlusCancels(Half(y), 0);
  }

  lemma {:induction false} EvenClocks(y: bv32, n: nat)
    requires EvenFor(y, n)
    ensures Clocks(y, n) == Halves(y, n)
    decreases n
  {
    if n > 0 {
      EvenClock(y);
      EvenClocks(Half(y), n - 1);
    }
  }

  lemma {:induction false} FeedIsClocks(r: bv32, b: bv32, n: nat)
    ensures FeedBits(r, b, n) == Plus(Clocks(Plus(r, b), n), Halves(b, n))
    decreases n
  {
    if n == 0 {
      PlusCancels(r, b);
    } else {
      var low := LowBit(b);
      LowBitSplits(b);
      PlusRegroups(r, b, low, low);
      PlusCancels(low, 0);
      PlusCancels(Plus(r, b), 0);
      assert Plus(Plus(r, low), Plus(b, low)) == Plus(r, b);
      ClockIsLinear(Plus(r, low), Plus(b, low));
      EvenClock(Plus(b, low));
      FeedIsClocks(Clock(Plus(r, low)), Half(b), n - 1);
    }
  }

  lemma HalfOf(x: bv32)
    ensures Half(x) == x >> 1 && Half(x >> 1) == x >> 2 && Half(x >> 2) == x >> 3 && Half(x >> 3) == x >> 4
    ensures Half(x >> 4) == x >> 5 && Half(x >> 5) == x >> 6 && Half(x >> 6) == x >> 7 && Half(x >> 7) == x >> 8
  {
    assert x >> 1 >> 1 == x >> 2 && x >> 2 >> 1 == x >> 3 && x >> 3 >> 1 == x >> 4;
    assert x >> 4 >> 1 == x >> 5 && x >> 5 >> 1 == x >> 6 && x >> 6 >> 1 == x >> 7 && x >> 7 >> 1 == x >> 8;
  }

  lemma EightHalves(x: bv32)
    ensures Halves(x, 8) == DropByte(x)
  {
    HalfOf(x);
    assert Halves(x, 8) == Halves(x >> 4, 4);
  }

  lemma HighBytesAreEven(x: bv32)
    ensures EvenFor(HighBytes(x), 8)
    ensures DropByte(HighBytes(x)) == DropByte(x)
  {
    LowBitsClear(x);
    EvenForEight(HighBytes(x));
    HighBytesDrop(x);
  }

  lemma HighBytesDrop(x: bv32)
    ensures DropByte(HighBytes(x)) == DropByte(x)
  {
    assert (x & 0xFFFF_FF00) >> 8 == x >> 8;
  }

  lemma EvenForEight(y: bv32)
    requires !Odd(y) && !Odd(y >> 1) && !Odd(y >> 2) && !Odd(y >> 3)
    requires !Odd(y >> 4) && !Odd(y >> 5) && !Odd(y >> 6) && !Odd(y >> 7)
    ensures EvenFor(y, 8)
  {
    HalfOf(y);
    assert EvenFor(y >> 4, 4);
  }

  lemma LowBitsClear(x: bv32)
    ensures var y := HighBytes(x);
            !Odd(y) && !Odd(y >> 1) && !Odd(y >> 2) && !Odd(y >> 3)
            && !Odd(y >> 4) && !Odd(y >> 5) && !Odd(y >> 6) && !Odd(y >> 7)
  {
    var y := x & 0xFFFF_FF00;
    assert y & 1 == 0 && (y >> 1) & 1 == 0 && (y >> 2) & 1 == 0 && (y >> 3) & 1 == 0;
    assert (y >> 4) & 1 == 0 && (y >> 5) & 1 == 0 && (y >> 6) & 1 == 0 && (y >> 7) & 1 == 0;
  }

  lemma DropOfByte(x: bv32)
    requires x < 0x100
    ensures DropByte(x) == 0
  {
    assert x >> 8 == 0;
  }

  /** Feeding the bits of a byte one by one is adding the whole byte and then clocking eight times. */
  lemma FeedByte(r: bv32, b: byte)
    ensures FeedBits(r, Bits(b), 8) == Clocks(Plus(r, Bits(b)), 8)
  {
    BitsValue(b);
    FeedIsClocks(r, Bits(b), 8);
    EightHalves(Bits(b));
    DropOfByte(Bits(b));
    PlusCancels(Clocks(Plus(r, Bits(b)), 8), 0);
  }

  // ----- the table form -----

  lemma TableStep(x: bv32)
    ensures Clocks(x, 8) == Plus(Clocks(LowByte(x), 8), DropByte(x))
  {
    LowByteSplits(x);
    ClocksAreLinear(LowByte(x), HighBytes(x), 8);
    HighBytesAreEven(x);
    EvenClocks(HighBytes(x), 8);
    EightHalves(HighBytes(x));
  }

  lemma DropAfterByte(r: bv32, b: bv32)
    requires b < 0x100
    ensures DropByte(Plus(r, b)) == DropByte(r)
  {
    assert (r ^ b) >> 8 == r >> 8;
  }

  lemma ByteStep(r: bv32, b: byte)
    ensures FeedBits(r, Bits(b), 8) == Plus(Clocks(LowByte(Plus(r, Bits(b))), 8), DropByte(r))
  {
    BitsValue(b);
    FeedByte(r, b);
    TableStep(Plus(r, Bits(b)));
    DropAfterByte(r, Bits(b));
  }

  /** The entry of the table at position i. */
  function Entry(i: nat): bv32 { Clocks(Bits(i), 8) }

  ghost predicate IsTable(table: seq<bv32>) {
    |table| == 256 && forall i :: 0 <= i < 256 ==> table[i] == Entry(i)
  }

  /** The branch-free clock of the table constructor. */
  function ClockByProduct(r: bv32): bv32 { Plus(Half(r), POLYNOMIAL * LowBit(r)) }

  lemma ProductIsClock(r: bv32)
    ensures ClockByProduct(r) == Clock(r)
  {
    OddOrEven(r);
  }

  method TableValue(i: nat) returns (crc: bv32)
    ensures crc == Entry(i)
  {
    crc := Bits(i);
    for j := 0 to 8
      invariant Clocks(crc, 8 - j) == Clocks(Bits(i), 8)
    {
      ProductIsClock(crc);
      crc := ClockByProduct(crc);
    }
  }

  method BuildTable() returns (table: seq<bv32>)
    ensures IsTable(table)
  {
    var data := new bv32[256];
    for i := 0 to 256
      invariant forall k :: 0 <= k < i ==> data[k] == Entry(k)
    {
      var crc := TableValue(i);
      data[i] := crc;
    }
    table := data[..];
  }

  method Crc32(table: seq<bv32>, data: bytes, crc: bv32) returns (r: bv32)
    requires IsTable(table)
    ensures r == Update(crc, data)
  {
    r := Complement(crc);
    for i := 0 to |data|
      invariant Register(r, data[i..]) == Register(Complement(crc), data)
    {
      var x := Plus(r, Bits(data[i]));
      var k := LowByte(x) as int;
      ByteStep(r, data[i]);
      TableEntry(x);
      r := Plus(table[k], DropByte(r));
      assert data[i..][1..] == data[i + 1..];
    }
    r := Complement(r);
  }

  lemma TableEntry(x: bv32)
    ensures 0 <= LowByte(x) as int < 256
    ensures Entry(LowByte(x) as int) == Clocks(LowByte(x), 8)
  {
    LowByteSplits(x);
    var y := LowByte(x);
    BitsValue(y as int);
    ValueInjective(Bits(y as int), y);
  }

  // ----- chaining -----

  lemma {:induction false} RegisterChains(r: bv32, a: bytes, b: bytes)
    ensures Register(r, a + b) == Register(Register(r, a), b)
    decreases |a|
  {
    if a == [] {
      assert a + b == b;
    } else {
      RegisterChains(FeedBits(r, Bits(a[0]), 8), a[1..], b);
      assert (a + b)[1..] == a[1..] + b;
    }
  }

  /** A checksum computed piece by piece is the checksum of the whole. */
  lemma Chaining(crc: bv32, a: bytes, b: bytes)
    ensures Update(Update(crc, a), b) == Update(crc, a + b)
  {
    RegisterChains(Complement(crc), a, b);
    ComplementTwice(Register(Complement(crc), a));
  }

  // ----- bursts -----

  function Double(x: bv32): bv32 { x << 1 }

  lemma OddClockIsLarge(h: bv32)
    requires h < 0x8000_0000
    ensures Plus(h, POLYNOMIAL) >= 0x8000_0000
  {
    assert h ^ 0xEDB88320 >= 0x8000_0000;
  }

  lemma EvenShift(x: bv32)
    requires x & 1 != 1
    ensures (x >> 1) << 1 == x
  {
  }

  lemma EvenHalf(x: bv32)
    requires !Odd(x)
    ensures x == Double(Half(x))
  {
    EvenShift(x);
  }

  lemma HalfBound(x: bv32)
    ensures Half(x) < 0x8000_0000
  {
    assert x >> 1 < 0x8000_0000;
  }

  lemma Unclock(x: bv32)
    requires Clock(x) < 0x8000_0000
    ensures x == Double(Clock(x))
  {
    HalfBound(x);
    if Odd(x) {
      OddClockIsLarge(Half(x));
      assert false;
    } else {
      EvenClock(x);
      EvenHalf(x);
    }
  }

  function Raise(x: bv32): bv32 { x << 8 }

  lemma DoubleSmall(x: bv32)
    ensures x < 0x100_0000 ==> Double(x) < 0x200_0000
    ensures x < 0x200_0000 ==> Double(x) < 0x400_0000
    ensures x < 0x400_0000 ==> Double(x) < 0x800_0000
    ensures x < 0x800_0000 ==> Double(x) < 0x1000_0000
    ensures x < 0x1000_0000 ==> Double(x) < 0x2000_0000
    ensures x < 0x2000_0000 ==> Double(x) < 0x4000_0000
    ensures x < 0x4000_0000 ==> Double(x) < 0x8000_0000
  {
  }

  lemma DoubleOf(x: bv32)
    ensures Double(x) == x << 1 && Double(x << 1) == x << 2 && Double(x << 2) == x << 3 && Double(x << 3) == x << 4
    ensures Double(x << 4) == x << 5 && Double(x << 5) == x << 6 && Double(x << 6) == x << 7 && Double(x << 7) == x << 8
  {
    assert x << 1 << 1 == x << 2 && x << 2 << 1 == x << 3 && x << 3 << 1 == x << 4;
    assert x << 4 << 1 == x << 5 && x << 5 << 1 == x << 6 && x << 6 << 1 == x << 7 && x << 7 << 1 == x << 8;
  }

  lemma EightDoubles(x: bv32)
    ensures Double(Double(Double(Double(Double(Double(Double(Double(x)))))))) == Raise(x)
  {
    DoubleOf(x);
  }

  /** x fits in n bytes. */
  predicate Within(x: bv32, n: nat) {
    if n == 0 then x == 0 else if n == 1 then x < 0x100
    else if n == 2 then x < 0x1_0000 else if n == 3 then x < 0x100_0000 else true
  }

  /** A register whose top byte is clear after eight clocks held the same pattern one byte higher. */
  lemma UnclockByte(x: bv32)
    requires Within(Clocks(x, 8), 3)
    ensures x == Raise(Clocks(x, 8))
  {
    var x1 := Clock(x);
    var x2 := Clock(x1);
    var x3 := Clock(x2);
    var x4 := Clock(x3);
    var x5 := Clock(x4);
    var x6 := Clock(x5);
    var x7 := Clock(x6);
    var x8 := Clock(x7);
    assert Clocks(x, 8) == Clocks(x4, 4) == x8;
    Unclock(x7); DoubleSmall(x8);
    Unclock(x6); DoubleSmall(x7);
    Unclock(x5); DoubleSmall(x6);
    Unclock(x4); DoubleSmall(x5);
    Unclock(x3); DoubleSmall(x4);
    Unclock(x2); DoubleSmall(x3);
    Unclock(x1); DoubleSmall(x2);
    Unclock(x); EightDoubles(x8);
  }

  lemma RaiseBound(x: bv32, n: nat)
    requires 0 < n <= 3 && Within(x, n - 1)
    ensures Within(x, 3) && Within(Raise(x), n)
  {
  }

  lemma WithinGrows(x: bv32, n: nat)
    requires n <= 3 && Within(x, n)
    ensures Within(x, 3)
  {
  }

  lemma XorBound(x: bv32, y: bv32)
    requires y < 0x100
    ensures x < 0x100 ==> Plus(x, y) < 0x100
    ensures x < 0x1_0000 ==> Plus(x, y) < 0x1_0000
    ensures x < 0x100_0000 ==> Plus(x, y) < 0x100_0000
  {
  }

  lemma PlusBound(x: bv32, y: bv32, n: nat)
    requires 0 < n <= 3 && Within(x, n) && Within(y, 1)
    ensures Within(Plus(x, y), n)
  {
    hide Plus;
    XorBound(x, y);
  }

  /** After different registers take in b and c, their difference is the clocked sum of both differences. */
  lemma StepDifference(r: bv32, q: bv32, b: byte, c: byte)
    ensures Plus(FeedBits(r, Bits(b), 8), FeedBits(q, Bits(c), 8)) == Clocks(Plus(Plus(r, q), Plus(Bits(b), Bits(c))), 8)
  {
    FeedByte(r, b);
    FeedByte(q, c);
    ClocksAreLinear(Plus(r, Bits(b)), Plus(q, Bits(c)), 8);
    PlusRegroups(r, q, Bits(b), Bits(c));
  }

  lemma CancelStep(x: bv32, e: bv32, n: nat)
    requires 0 < n <= 3 && Within(e, 1)
    requires Within(Clocks(Plus(x, e), 8), n - 1)
    ensures Within(x, n)
  {
    var y := Plus(x, e);
    RaiseBound(Clocks(y, 8), n);
    UnclockByte(y);
    PlusBound(y, e, n);
    PlusCancels(x, e);
  }

  lemma NothingWithin()
    ensures Within(0, 0)
  {
  }

  lemma {:induction false} Cancelling(r: bv32, q: bv32, s: bytes, t: bytes)
    requires |s| == |t| <= 3 && Register(r, s) == Register(q, t)
    ensures Within(Plus(r, q), |s|)
    decreases |s|
  {
    hide FeedBits, Bits, Plus, Within, Clocks;
    if s == [] {
      PlusCancels(r, q);
      NothingWithin();
    } else {
      var r', q' := FeedBits(r, Bits(s[0]), 8), FeedBits(q, Bits(t[0]), 8);
      Cancelling(r', q', s[1..], t[1..]);
      StepDifference(r, q, s[0], t[0]);
      ByteSum(s[0], t[0]);
      CancelStep(Plus(r, q), Plus(Bits(s[0]), Bits(t[0])), |s|);
    }
  }

  lemma ByteSum(b: byte, c: byte)
    ensures Within(Plus(Bits(b), Bits(c)), 1)
    ensures Plus(Bits(b), Bits(c)) == 0 ==> b == c
  {
    BitsValue(b);
    BitsValue(c);
    PlusBound(Bits(b), Bits(c), 1);
    PlusCancels(Bits(b), Bits(c));
  }

  /** Equal remainders never make different registers equal. */
  lemma {:induction false} RegisterInjective(r: bv32, q: bv32, s: bytes)
    requires Register(r, s) == Register(q, s)
    ensures r == q
    decreases |s|
  {
    if s != [] {
      RegisterInjective(FeedBits(r, Bits(s[0]), 8), FeedBits(q, Bits(s[0]), 8), s[1..]);
      StepDifference(r, q, s[0], s[0]);
      PlusCancels(FeedBits(r, Bits(s[0]), 8), 0);
      PlusCancels(Bits(s[0]), 0);
      PlusCancels(Plus(r, q), 0);
      UnclockByte(Plus(r, q));
      RaiseZero();
      PlusCancels(r, q);
    }
  }

  lemma RaiseZero()
    ensures Raise(0) == 0
  {
  }

  lemma RaiseHasNoLowByte(x: bv32)
    requires Within(Raise(x), 1)
    ensures Raise(x) == 0
  {
  }

  lemma ByteDifference(r: bv32, b: byte, c: byte)
    requires b != c
    ensures !Within(Plus(FeedBits(r, Bits(b), 8), FeedBits(r, Bits(c), 8)), 3)
  {
    var e := Plus(Bits(b), Bits(c));
    StepDifference(r, r, b, c);
    PlusCancels(r, 0);
    PlusCancels(e, 0);
    PlusIsAssociative(0, e, 0);
    ByteSum(b, c);
    if Within(Clocks(e, 8), 3) {
      UnclockByte(e);
      RaiseHasNoLowByte(Clocks(e, 8));
    }
  }

  lemma ShortDifference(r: bv32, u: bytes, v: bytes)
    requires 1 <= |u| == |v| <= 4 && u[0] != v[0]
    ensures Register(r, u) != Register(r, v)
  {
    hide FeedBits, Bits, Plus, Within, Clocks;
    if Register(r, u) == Register(r, v) {
      var r', q' := FeedBits(r, Bits(u[0]), 8), FeedBits(r, Bits(v[0]), 8);
      Cancelling(r', q', u[1..], v[1..]);
      WithinGrows(Plus(r', q'), |u| - 1);
      ByteDifference(r, u[0], v[0]);
    }
  }

  lemma BurstFromFirst(r: bv32, u: bytes, v: bytes, w: bytes)
    requires 1 <= |u| == |v| <= 4 && u[0] != v[0]
    ensures Register(r, u + w) != Register(r, v + w)
  {
    ShortDifference(r, u, v);
    RegisterChains(r, u, w);
    RegisterChains(r, v, w);
    if Register(r, u + w) == Register(r, v + w) {
      RegisterInjective(Register(r, u), Register(r, v), w);
    }
  }

  /** Two strings that differ, and only inside a window of four bytes, never have the same checksum. */
  lemma {:induction false} BurstDetected(r: bv32, s: bytes, t: bytes, k: nat)
    requires |s| == |t| && s != t
    requires forall i :: 0 <= i < |s| && !(k <= i < k + 4) ==> s[i] == t[i]
    ensures Register(r, s) != Register(r, t)
    decreases |s|
  {
    if s[0] == t[0] {
      assert s == [s[0]] + s[1..] && t == [t[0]] + t[1..];
      BurstDetected(FeedBits(r, Bits(s[0]), 8), s[1..], t[1..], if k == 0 then 0 else k - 1);
    } else {
      var m := if |s| < 4 then |s| else 4;
      assert s == s[..m] + s[m..] && t == t[..m] + s[m..];
      BurstFromFirst(r, s[..m], t[..m], s[m..]);
    }
  }

  lemma BurstChangesChecksum(s: bytes, t: bytes, k: nat)
    requires |s| == |t| && s != t
    requires forall i :: 0 <= i < |s| && !(k <= i < k + 4) ==> s[i] == t[i]
    ensures Checksum(s) != Checksum(t)
  {
    var r := Complement(0);
    BurstDetected(r, s, t, k);
    ComplementTwice(Register(r, s));
    ComplementTwice(Register(r, t));
    if Checksum(s) == Checksum(t) {
      ValueInjective(Update(0, s), Update(0, t));
    }
  }
}
