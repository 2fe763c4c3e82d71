/**
 The two bit-serial checksums of the sideband channel, and what they compute:
 remainders of polynomial division by x^4 + x + 1 and by x^8 + x^7 + x^6 + x^4 + x^2 + 1.
 */
module Crc {
  import opened Gf2
  import opened Words

  const HEADER_GENERATOR: seq<nat> := [4, 1, 0]
  const DATA_GENERATOR: seq<nat> := [8, 7, 6, 4, 2, 0]

  predicate BitAt(data: seq<Byte>, k: nat)
    requires k < 8 * |data|
  {
    Bit(data[k / 8], 7 - k % 8)
  }

  /** The bits of a byte string in transmission order, most significant first. */
  function Bits(data: seq<Byte>): (bits: seq<bool>)
    ensures |bits| == 8 * |data|
  {
    seq(8 * |data|, k requires 0 <= k < 8 * |data| => BitAt(data, k))
  }

  lemma BitsAt(data: seq<Byte>, index: nat, shift: nat)
    requires index < |data| && shift < 8
    ensures Bits(data)[8 * index + 7 - shift] == Bit(data[index], shift)
  {
  }

  function Zeros(n: nat): (z: seq<bool>)
    ensures |z| == n && forall i :: 0 <= i < n ==> !z[i]
  {
    seq(n, _ => false)
  }

  /** Shift a bit into the bottom of a register of the given width. */
  function ShiftIn(r: nat, b: bool, width: nat): nat {
    Low(2 * r + if b then 1 else 0, width)
  }

  // ----- the 4-bit header checksum -----

  /** One turn of the header loop on its u8 register. */
  function Step4(r: nat, b: bool): nat {
    var s := ShiftIn(r, b, 8);
    if Bit(s, 4) then Xor(s, 0x13) else s
  }

  function Rem4(bits: seq<bool>): nat {
    if bits == [] then 0 else Step4(Rem4(bits[..|bits| - 1]), bits[|bits| - 1])
  }

  /** The remainder after the message has been padded with four zero bits. */
  function Crc4(bits: seq<bool>): nat {
    Rem4(bits + Zeros(4))
  }

  /** The first loop of the checksum: shift in the message. */
  method Feed4(data: seq<Byte>, bitCount: nat) returns (remainder: nat)
    requires bitCount <= 8 * |data|
    ensures remainder == Rem4(Bits(data)[..bitCount])
  {
    hide Low, Xor, Bit, Bits;
    var bitshift, arrayIndex := 7, 0;
    var numberOfBits := bitCount;
    ghost var bits, done := Bits(data), 0;
    remainder := 0;
    while numberOfBits != 0
      invariant 0 <= numberOfBits && done + numberOfBits == bitCount
      invariant 0 <= bitshift < 8 && done == 8 * arrayIndex + 7 - bitshift
      invariant remainder == Rem4(bits[..done])
    {
      BitsAt(data, arrayIndex, bitshift);
      Rem4Append(bits[..done], bits[done]);
      assert bits[..done + 1] == bits[..done] + [bits[done]];
      numberOfBits := numberOfBits - 1;
      remainder := ShiftIn(remainder, Bit(data[arrayIndex], bitshift), 8);
      if bitshift == 0 {
        bitshift, arrayIndex := 7, arrayIndex + 1;
      } else {
        bitshift := bitshift - 1;
      }
      if Bit(remainder, 4) {
        remainder := Xor(remainder, 0x13);
      }
      done := done + 1;
    }
  }

  /** The second loop of the checksum: shift in 4 zero bits. */
  method Flush4(r: nat, ghost bits: seq<bool>) returns (remainder: nat)
    requires r == Rem4(bits)
    ensures remainder == Rem4(bits + Zeros(4))
  {
    hide Low, Xor, Bit;
    var numberOfBits := 4;
    remainder := r;
    assert bits + Zeros(0) == bits;
    while numberOfBits != 0
      invariant 0 <= numberOfBits <= 4
      invariant remainder == Rem4(bits + Zeros(4 - numberOfBits))
    {
      Rem4Append(bits + Zeros(4 - numberOfBits), false);
      assert bits + Zeros(4 - numberOfBits) + [false] == bits + Zeros(5 - numberOfBits);
      numberOfBits := numberOfBits - 1;
      remainder := ShiftIn(remainder, false, 8);
      if Bit(remainder, 4) {
        remainder := Xor(remainder, 0x13);
      }
    }
  }

  method HeaderCrc4(data: seq<Byte>, numNibbles: nat) returns (remainder: nat)
    requires 4 * numNibbles <= 8 * |data|
    ensures remainder == Crc4(Bits(data)[..4 * numNibbles])
  {
    remainder := Feed4(data, numNibbles * 4);
    remainder := Flush4(remainder, Bits(data)[..4 * numNibbles]);
  }

  lemma Rem4Append(bits: seq<bool>, b: bool)
    ensures Rem4(bits + [b]) == Step4(Rem4(bits), b)
  {
    assert (bits + [b])[..|bits|] == bits;
  }

  // ----- the 8-bit data checksum -----

  /** One turn of the data loop on its u16 register, which is never cleared above bit 8. */
  function Step8(r: nat, b: bool): nat {
    var s := ShiftIn(r, b, 16);
    if Bit(s, 8) then Xor(s, 0xd5) else s
  }

  function Rem8(bits: seq<bool>): nat {
    if bits == [] then 0 else Step8(Rem8(bits[..|bits| - 1]), bits[|bits| - 1])
  }

  function Crc8(bits: seq<bool>): nat {
    Low(Rem8(bits + Zeros(8)), 8)
  }

  /** The first loop of the checksum: shift in the message. */
  method Feed8(data: seq<Byte>, bitCount: nat) returns (remainder: nat)
    requires bitCount <= 8 * |data|
    ensures remainder == Rem8(Bits(data)[..bitCount])
  {
    hide Low, Xor, Bit, Bits;
    var bitshift, arrayIndex := 7, 0;
    var numberOfBits := bitCount;
    ghost var bits, done := Bits(data), 0;
    remainder := 0;
    while numberOfBits != 0
      invariant 0 <= numberOfBits && done + numberOfBits == bitCount
      invariant 0 <= bitshift < 8 && done == 8 * arrayIndex + 7 - bitshift
      invariant remainder == Rem8(bits[..done])
    {
      BitsAt(data, arrayIndex, bitshift);
      Rem8Append(bits[..done], bits[done]);
      assert bits[..done + 1] == bits[..done] + [bits[done]];
      numberOfBits := numberOfBits - 1;
      remainder := ShiftIn(remainder, Bit(data[arrayIndex], bitshift), 16);
      if bitshift == 0 {
        bitshift, arrayIndex := 7, arrayIndex + 1;
      } else {
        bitshift := bitshift - 1;
      }
      if Bit(remainder, 8) {
        remainder := Xor(remainder, 0xd5);
      }
      done := done + 1;
    }
  }

  /** The second loop of the checksum: shift in 8 zero bits. */
  method Flush8(r: nat, ghost bits: seq<bool>) returns (remainder: nat)
    requires r == Rem8(bits)
    ensures remainder == Rem8(bits + Zeros(8))
  {
    hide Low, Xor, Bit;
    var numberOfBits := 8;
    remainder := r;
    assert bits + Zeros(0) == bits;
    while numberOfBits != 0
      invariant 0 <= numberOfBits <= 8
      invariant remainder == Rem8(bits + Zeros(8 - numberOfBits))
    {
      Rem8Append(bits + Zeros(8 - numberOfBits), false);
      assert bits + Zeros(8 - numberOfBits) + [false] == bits + Zeros(9 - numberOfBits);
      numberOfBits := numberOfBits - 1;
      remainder := ShiftIn(remainder, false, 16);
      if Bit(remainder, 8) {
        remainder := Xor(remainder, 0xd5);
      }
    }
  }

  method DataCrc8(data: seq<Byte>, numberOfBytes: nat) returns (crc: nat)
    requires numberOfBytes <= |data|
    ensures crc == Crc8(Bits(data)[..8 * numberOfBytes])
  {
    var remainder := Feed8(data, numberOfBytes * 8);
    remainder := Flush8(remainder, Bits(data)[..8 * numberOfBytes]);
    crc := Low(remainder, 8);
  }

  lemma Rem8Append(bits: seq<bool>, b: bool)
    ensures Rem8(bits + [b]) == Step8(Rem8(bits), b)
  {
    assert (bits + [b])[..|bits|] == bits;
  }

  // ----- both loops are long division -----

  /** Multiplying 1 by a list of distinct exponents gives the set of those exponents. */
  lemma {:induction false} UnitTimes(g: seq<nat>)
    requires forall i, j :: 0 <= i < j < |g| ==> g[i] != g[j]
    ensures forall e: nat :: e in Mul({0}, g) <==> e in g
  {
    if g != [] {
      UnitTimes(g[1..]);
      assert Shift({0}, g[0]) == {g[0]};
    }
  }

  lemma HeaderWord()
    ensures ToPoly(0x13) == {0, 1, 4}
  {
    SmallPoly(0x13, 5);
    forall e: nat
      ensures e in ToPoly(0x13) <==> e in {0, 1, 4}
    {
      InToPoly(0x13, e);
      if e == 2 { assert !Bit(0x13, 2); }
      else if e == 3 { assert !Bit(0x13, 3); }
      else if e == 1 { assert Bit(0x13, 1); }
      else if e == 4 { assert Bit(0x13, 4); }
    }
  }

  lemma DataWord()
    ensures ToPoly(0xd5) == {0, 2, 4, 6, 7}
  {
    SmallPoly(0xd5, 8);
    forall e: nat
      ensures e in ToPoly(0xd5) <==> e in {0, 2, 4, 6, 7}
    {
      InToPoly(0xd5, e);
      if e == 1 { assert !Bit(0xd5, 1); }
      else if e == 2 { assert Bit(0xd5, 2); }
      else if e == 3 { assert !Bit(0xd5, 3); }
      else if e == 4 { assert Bit(0xd5, 4); }
      else if e == 5 { assert !Bit(0xd5, 5); }
      else if e == 6 { assert Bit(0xd5, 6); }
      else if e == 7 { assert Bit(0xd5, 7); }
    }
  }

  /** The register after a turn, as a polynomial: shift up, add the bit, subtract on a carry. */
  lemma Step4Poly(r: nat, b: bool)
    requires DegBelow(ToPoly(r), 4)
    ensures DegBelow(ToPoly(Step4(r, b)), 4)
    ensures ToPoly(Step4(r, b)) ==
            Add(Add(Shift(ToPoly(r), 1), if b then {0} else {}),
                if 3 in ToPoly(r) then {4, 1, 0} else {})
  {
    hide Low, Xor, Bit, ToPoly;
    var s := ShiftIn(r, b, 8);
    var p := Add(Shift(ToPoly(r), 1), if b then {0} else {});
    ShiftInIsStep(r, b);
    LowPoly(2 * r + if b then 1 else 0, 8);
    forall e: nat
      ensures e in p <==> e in ToPoly(s)
      ensures e in p ==> e < 5
      ensures e > 0 ==> (e in p <==> e - 1 in ToPoly(r))
    {
      InShift(ToPoly(r), 1, e);
    }
    InToPoly(s, 4);
    HeaderWord();
    XorIsAdd(s, 0x13);
    assert 4 in p <==> 3 in ToPoly(r);
    assert {4, 1, 0} == {0, 1, 4};
  }

  /** Up to bit 8, the shifted register depends on the low byte only. */
  lemma ShiftedLow(r: nat, b: bool, e: nat)
    requires e <= 8
    ensures e in ToPoly(ShiftIn(r, b, 16)) <==>
            e in Add(Shift(ToPoly(Low(r, 8)), 1), if b then {0} else {})
  {
    hide Low, Xor, Bit, ToPoly;
    ShiftInIsStep(r, b);
    LowPoly(2 * r + if b then 1 else 0, 16);
    LowPoly(r, 8);
    InShift(ToPoly(Low(r, 8)), 1, e);
    InShift(ToPoly(r), 1, e);
  }

  lemma Step8Bit(r: nat, b: bool, e: nat)
    requires e < 8
    ensures e in ToPoly(Step8(r, b)) <==>
            e in Add(Add(Shift(ToPoly(Low(r, 8)), 1), if b then {0} else {}),
                     if 7 in ToPoly(Low(r, 8)) then {8, 7, 6, 4, 2, 0} else {})
  {
    hide Low, Xor, Bit, ToPoly;
    var s := ShiftIn(r, b, 16);
    ShiftedLow(r, b, e);
    ShiftedLow(r, b, 8);
    InToPoly(s, 8);
    InShift(ToPoly(Low(r, 8)), 1, 8);
    DataWord();
    XorIsAdd(s, 0xd5);
  }

  /** The low byte of the data register follows the division step whatever piles up above it. */
  lemma Step8Poly(r: nat, b: bool)
    ensures ToPoly(Low(Step8(r, b), 8)) ==
            Add(Add(Shift(ToPoly(Low(r, 8)), 1), if b then {0} else {}),
                if 7 in ToPoly(Low(r, 8)) then {8, 7, 6, 4, 2, 0} else {})
  {
    hide Step8, Low, Xor, Bit, ToPoly;
    var low := ToPoly(Low(r, 8));
    var rhs := Add(Add(Shift(low, 1), if b then {0} else {}), if 7 in low then {8, 7, 6, 4, 2, 0} else {});
    LowPoly(Step8(r, b), 8);
    LowPoly(r, 8);
    forall e: nat
      ensures e in ToPoly(Low(Step8(r, b), 8)) <==> e in rhs
    {
      if e < 8 { Step8Bit(r, b, e); } else { InShift(low, 1, e); }
    }
  }

  lemma HeaderGenerator()
    ensures IsDivisor(HEADER_GENERATOR) && Mul({0}, HEADER_GENERATOR) == {4, 1, 0}
  {
    UnitTimes(HEADER_GENERATOR);
  }

  lemma DataGenerator()
    ensures IsDivisor(DATA_GENERATOR) && Mul({0}, DATA_GENERATOR) == {8, 7, 6, 4, 2, 0}
  {
    UnitTimes(DATA_GENERATOR);
  }

  /** The header loop is long division: the bits are a multiple of x^4 + x + 1 plus the register. */
  lemma {:induction false} Rem4IsRemainder(bits: seq<bool>) returns (q: Poly)
    ensures DegBelow(ToPoly(Rem4(bits)), 4)
    ensures Add(Mul(q, HEADER_GENERATOR), ToPoly(Rem4(bits))) == FromBits(bits)
  {
    hide Low, Xor, Bit, Mul, Step4, IsDivisor;
    HeaderGenerator();
    if bits == [] {
      q := {};
      MulEmpty(HEADER_GENERATOR);
    } else {
      var init, b := bits[..|bits| - 1], bits[|bits| - 1];
      var one: Poly := if b then {0} else {};
      var q0 := Rem4IsRemainder(init);
      q := DivisionStep(HEADER_GENERATOR, FromBits(init), q0, ToPoly(Rem4(init)), one);
      Step4Poly(Rem4(init), b);
      FromBitsAppend(init, b);
      assert init + [b] == bits;
    }
  }

  /**
   The data loop is long division as well, although it subtracts 0xd5 instead of 0x1d5
   and lets the carries run off the top of the u16.
   */
  lemma {:induction false} Rem8IsRemainder(bits: seq<bool>) returns (q: Poly)
    ensures DegBelow(ToPoly(Low(Rem8(bits), 8)), 8)
    ensures Add(Mul(q, DATA_GENERATOR), ToPoly(Low(Rem8(bits), 8))) == FromBits(bits)
  {
    hide Low, Xor, Bit, Mul, Step8, IsDivisor;
    LowPoly(Rem8(bits), 8);
    if bits == [] {
      q := {};
      MulEmpty(DATA_GENERATOR);
      assert ToPoly(0) == {};
    } else {
      var init, b := bits[..|bits| - 1], bits[|bits| - 1];
      assert init + [b] == bits;
      var q0 := Rem8IsRemainder(init);
      q := Rem8Step(init, b, q0, Rem8(init));
    }
  }

  lemma Rem8Step(init: seq<bool>, b: bool, q0: Poly, rem: nat) returns (q: Poly)
    requires Add(Mul(q0, DATA_GENERATOR), ToPoly(Low(rem, 8))) == FromBits(init)
    ensures Add(Mul(q, DATA_GENERATOR), ToPoly(Low(Step8(rem, b), 8))) == FromBits(init + [b])
  {
    hide Low, Xor, Bit, Mul, Step8, IsDivisor, ToPoly, FromBits;
    DataGenerator();
    var one: Poly := if b then {0} else {};
    q := DivisionStep(DATA_GENERATOR, FromBits(init), q0, ToPoly(Low(rem, 8)), one);
    Step8Poly(rem, b);
    FromBitsAppend(init, b);
  }

  // ----- what a matching header checksum means -----

  lemma ZeroTail(bits: seq<bool>, tail: seq<bool>)
    ensures FromBits(bits + tail) == Add(FromBits(bits + Zeros(|tail|)), FromBits(tail))
  {
    var whole, padded := bits + tail, bits + Zeros(|tail|);
    forall e: nat
      ensures e in FromBits(whole) <==> e in Add(FromBits(padded), FromBits(tail))
    {
      InFromBits(whole, e);
      InFromBits(padded, e);
      InFromBits(tail, e);
    }
  }

  lemma BitsConcat(a: seq<Byte>, b: seq<Byte>)
    ensures Bits(a + b) == Bits(a) + Bits(b)
  {
    var ab := a + b;
    forall k | 0 <= k < 8 * |ab| ensures Bits(ab)[k] == (Bits(a) + Bits(b))[k] {
      if k < 8 * |a| {
        assert ab[k / 8] == a[k / 8];
      } else {
        var n := k - 8 * |a|;
        assert n / 8 == k / 8 - |a| && n % 8 == k % 8;
        assert ab[k / 8] == b[n / 8];
      }
    }
  }

  /** The bits of one byte are its coefficients. */
  lemma BitsOfByte(b: Byte)
    ensures FromBits(Bits([b])) == ToPoly(b)
  {
    SmallPoly(b, 8);
    forall e: nat ensures e in FromBits(Bits([b])) <==> e in ToPoly(b) {
      InToPoly(b, e);
      InFromBits(Bits([b]), e);
      if e < 8 { BitsAt([b], 0, e); }
    }
  }

  /** A header carries the right checksum exactly when its bits are a multiple of x^4 + x + 1. */
  lemma Crc4IffMultiple(bits: seq<bool>, nibble: nat, tail: seq<bool>)
    requires |tail| == 4 && FromBits(tail) == ToPoly(nibble)
    ensures Crc4(bits) == nibble <==> Divides(HEADER_GENERATOR, FromBits(bits + tail))
  {
    HeaderGenerator();
    var crc := Crc4(bits);
    var q := Rem4IsRemainder(bits + Zeros(4));
    ZeroTail(bits, tail);
    var m, sum := Mul(q, HEADER_GENERATOR), Add(ToPoly(crc), ToPoly(nibble));
    AddAssoc(m, ToPoly(crc), ToPoly(nibble));
    if crc == nibble {
      assert sum == {};
      assert Add(m, {}) == m;
    }
    if Divides(HEADER_GENERATOR, FromBits(bits + tail)) {
      var q2: Poly :| Mul(q2, HEADER_GENERATOR) == FromBits(bits + tail);
      assert Add(Mul(q2, HEADER_GENERATOR), {}) == Mul(q2, HEADER_GENERATOR);
      assert DegBelow(sum, 4) by {
        forall e | e in FromBits(tail) ensures e < 4 { InFromBits(tail, e); }
      }
      RemainderUnique(HEADER_GENERATOR, q, sum, q2, {});
      assert forall e: nat :: e in ToPoly(crc) <==> e in ToPoly(nibble);
      ToPolyInjective(crc, nibble);
    }
  }

  /** The data checksum is the byte that makes payload and checksum a multiple of the data generator. */
  lemma Crc8IffMultiple(bits: seq<bool>, check: nat, tail: seq<bool>)
    requires |tail| == 8 && FromBits(tail) == ToPoly(check)
    ensures Crc8(bits) == check <==> Divides(DATA_GENERATOR, FromBits(bits + tail))
  {
    hide Rem8;
    DataGenerator();
    var crc := Crc8(bits);
    var q := Rem8IsRemainder(bits + Zeros(8));
    ZeroTail(bits, tail);
    var m, sum := Mul(q, DATA_GENERATOR), Add(ToPoly(crc), ToPoly(check));
    AddAssoc(m, ToPoly(crc), ToPoly(check));
    if crc == check {
      assert sum == {};
      assert Add(m, {}) == m;
    }
    if Divides(DATA_GENERATOR, FromBits(bits + tail)) {
      var q2: Poly :| Mul(q2, DATA_GENERATOR) == FromBits(bits + tail);
      assert Add(Mul(q2, DATA_GENERATOR), {}) == Mul(q2, DATA_GENERATOR);
      assert DegBelow(sum, 8) by {
        forall e | e in FromBits(tail) ensures e < 8 { InFromBits(tail, e); }
      }
      RemainderUnique(DATA_GENERATOR, q, sum, q2, {});
      assert forall e: nat :: e in ToPoly(crc) <==> e in ToPoly(check);
      ToPolyInjective(crc, check);
    }
  }
}
