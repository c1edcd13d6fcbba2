/**
 The CRC of Redis Cluster keys: the byte-wise loop over a table computes the remainder of a long
 division of polynomials over GF(2) by x^16 + x^12 + x^5 + 1 (CRC-16/XMODEM).
 */
module Crc16 {
  const POLY: bv16 := 0x1021

  // ----- Long division -----

  // Addition of polynomials over GF(2).
  function Add(a: bv16, b: bv16): bv16 { a ^ b }

  predicate Top(r: bv16) { r & 0x8000 != 0 }

  function Up(r: bv16): bv16 { r << 1 }

  // Multiplication by x, modulo the polynomial.
  function Shift(r: bv16): bv16 {
    Add(Up(r), if Top(r) then POLY else 0)
  }

  // The next coefficient of the dividend is brought down.
  function Divide(r: bv16, bit: bool): bv16 {
    Add(Shift(r), if bit then 1 else 0)
  }

  function Remainder(r: bv16, bits: seq<bool>): bv16
    decreases |bits|
  {
    if bits == [] then r else Remainder(Divide(r, bits[0]), bits[1..])
  }

  // The coefficients of a byte, the highest first.
  function BitsOf(b: bv8): seq<bool> {
    [b & 0x80 != 0, b & 0x40 != 0, b & 0x20 != 0, b & 0x10 != 0, b & 8 != 0, b & 4 != 0, b & 2 != 0, b & 1 != 0]
  }

  function Bits(s: seq<bv8>): seq<bool> {
    if s == [] then [] else Bits(s[..|s| - 1]) + BitsOf(s[|s| - 1])
  }

  function Zeros(n: nat): seq<bool> {
    if n == 0 then [] else [false] + Zeros(n - 1)
  }

  // The remainder of the message times x^16.
  function Crc(s: seq<bv8>): bv16 {
    Remainder(0, Bits(s) + Zeros(16))
  }

  // ----- Without the zeros -----

  lemma AddNone(a: bv16)
    ensures Add(a, 0) == a
  {
  }

  lemma AddOrder(a: bv16, b: bv16)
    ensures Add(a, b) == Add(b, a)
  {
  }

  lemma AddAssoc(a: bv16, b: bv16, c: bv16)
    ensures Add(Add(a, b), c) == Add(a, Add(b, c))
  {
  }

  lemma AddPairs(a: bv16, b: bv16, c: bv16, d: bv16)
    ensures Add(Add(a, c), Add(b, d)) == Add(Add(a, b), Add(c, d))
  {
    hide Add;
    AddAssoc(a, c, Add(b, d));
    AddAssoc(c, b, d);
    AddOrder(c, b);
    AddAssoc(b, c, d);
    AddAssoc(a, b, Add(c, d));
  }

  lemma UpAdd(a: bv16, b: bv16)
    ensures Up(Add(a, b)) == Add(Up(a), Up(b))
  {
  }

  lemma TopAdd(a: bv16, b: bv16)
    ensures Top(Add(a, b)) <==> Top(a) != Top(b)
  {
  }

  // The polynomial, or nothing.
  function Carry(t: bool): bv16 { if t then POLY else 0 }

  lemma CarryAdd(s: bool, t: bool)
    ensures Add(Carry(s), Carry(t)) == Carry(s != t)
  {
  }

  lemma ShiftAdd(a: bv16, b: bv16)
    ensures Shift(Add(a, b)) == Add(Shift(a), Shift(b))
  {
    hide Add;
    hide Up;
    hide Top;
    UpAdd(a, b);
    TopAdd(a, b);
    CarryAdd(Top(a), Top(b));
    AddPairs(Up(a), Up(b), Carry(Top(a)), Carry(Top(b)));
  }

  // Multiplication by x^n.
  function Times(r: bv16, n: nat): bv16
    decreases n
  {
    if n == 0 then r else Times(Shift(r), n - 1)
  }

  lemma {:induction false} TimesAdd(a: bv16, b: bv16, n: nat)
    ensures Times(Add(a, b), n) == Add(Times(a, n), Times(b, n))
    decreases n
  {
    hide Shift;
    hide Add;
    if n > 0 {
      ShiftAdd(a, b);
      TimesAdd(Shift(a), Shift(b), n - 1);
    }
  }

  lemma {:induction false} TimesShift(r: bv16, n: nat)
    ensures Times(Shift(r), n) == Shift(Times(r, n))
    decreases n
  {
    hide Shift;
    if n > 0 {
      TimesShift(Shift(r), n - 1);
    }
  }

  lemma {:induction false} RemainderZeros(r: bv16, n: nat)
    ensures Remainder(r, Zeros(n)) == Times(r, n)
    decreases n
  {
    hide Shift;
    hide Add;
    if n > 0 {
      AddNone(Shift(r));
      RemainderZeros(Shift(r), n - 1);
      assert Zeros(n)[1..] == Zeros(n - 1);
    }
  }

  // The coefficients enter at the top: no zeros are needed at the end.
  function Direct(z: bv16, bit: bool): bv16 {
    Add(Shift(z), Carry(bit))
  }

  function DirectAll(z: bv16, bits: seq<bool>): bv16
    decreases |bits|
  {
    if bits == [] then z else DirectAll(Direct(z, bits[0]), bits[1..])
  }

  function Shift8(r: bv16): bv16 {
    Shift(Shift(Shift(Shift(Shift(Shift(Shift(Shift(r))))))))
  }

  lemma TimesEight(r: bv16)
    ensures Times(r, 8) == Shift8(r)
  {
    hide Shift;
    var r4 := Shift(Shift(Shift(Shift(r))));
    TimesTwice(r, 4, 4);
    assert Times(r, 4) == r4 by {
      assert Times(Shift(Shift(r)), 2) == r4;
    }
    assert Times(r4, 4) == Shift8(r) by {
      assert Times(Shift(Shift(r4)), 2) == Shift8(r);
    }
  }

  lemma Shift8Poly()
    ensures Shift8(1) == 0x100 && Shift8(0x100) == POLY && Shift8(0) == 0
  {
  }

  lemma PolyIsX16()
    ensures Times(1, 16) == POLY && Times(0, 16) == 0
  {
    hide Times;
    hide Shift8;
    Shift8Poly();
    TimesTwice(1, 8, 8);
    TimesTwice(0, 8, 8);
    TimesEight(0);
    TimesEight(1);
    TimesEight(0x100);
  }

  lemma {:induction false} TimesTwice(r: bv16, m: nat, n: nat)
    ensures Times(r, m + n) == Times(Times(r, m), n)
    decreases m
  {
    hide Shift;
    if m > 0 {
      TimesTwice(Shift(r), m - 1, n);
    }
  }

  lemma DirectDivide(r: bv16, bit: bool)
    ensures Times(Divide(r, bit), 16) == Direct(Times(r, 16), bit)
  {
    TimesAdd(Shift(r), if bit then 1 else 0, 16);
    TimesShift(r, 16);
    PolyIsX16();
    hide Times;
    hide Shift;
    hide Add;
  }

  lemma {:induction false} DirectRemainder(r: bv16, bits: seq<bool>)
    ensures Times(Remainder(r, bits), 16) == DirectAll(Times(r, 16), bits)
    decreases |bits|
  {
    hide Times;
    hide Direct;
    hide Divide;
    if bits != [] {
      DirectDivide(r, bits[0]);
      DirectRemainder(Divide(r, bits[0]), bits[1..]);
    }
  }

  lemma {:induction false} RemainderAppend(r: bv16, a: seq<bool>, b: seq<bool>)
    ensures Remainder(r, a + b) == Remainder(Remainder(r, a), b)
    ensures DirectAll(r, a + b) == DirectAll(DirectAll(r, a), b)
    decreases |a|
  {
    hide Divide;
    hide Direct;
    if a == [] {
      assert a + b == b;
    } else {
      assert (a + b)[1..] == a[1..] + b;
      RemainderAppend(Divide(r, a[0]), a[1..], b);
      RemainderAppend(Direct(r, a[0]), a[1..], b);
    }
  }

  lemma {:induction false} CrcDirect(s: seq<bv8>)
    ensures Crc(s) == DirectAll(0, Bits(s))
  {
    hide Remainder;
    hide DirectAll;
    hide Times;
    RemainderAppend(0, Bits(s), Zeros(16));
    RemainderZeros(Remainder(0, Bits(s)), 16);
    DirectRemainder(0, Bits(s));
    PolyIsX16();
  }

  // ----- A byte at a time -----

  // One coefficient of `w` enters, the others move up.
  lemma ShiftBit(r: bv16, w: bv16)
    ensures Shift(Add(r, w)) == Add(Direct(r, Top(w)), Up(w))
  {
    hide Add;
    hide Up;
    hide Top;
    ShiftAdd(r, w);
    AddAssoc(Shift(r), Carry(Top(w)), Up(w));
    AddOrder(Up(w), Carry(Top(w)));
  }

  // The highest `n` coefficients of `w`.
  function Tops(w: bv16, n: nat): seq<bool>
    decreases n
  {
    if n == 0 then [] else [Top(w)] + Tops(Up(w), n - 1)
  }

  function Ups(w: bv16, n: nat): bv16
    decreases n
  {
    if n == 0 then w else Ups(Up(w), n - 1)
  }

  lemma {:induction false} TimesDirect(r: bv16, w: bv16, n: nat)
    ensures Times(Add(r, w), n) == Add(DirectAll(r, Tops(w, n)), Ups(w, n))
    decreases n
  {
    hide Add;
    hide Shift;
    hide Direct;
    hide Up;
    hide Top;
    if n > 0 {
      ShiftBit(r, w);
      TimesDirect(Direct(r, Top(w)), Up(w), n - 1);
      assert Tops(w, n)[1..] == Tops(Up(w), n - 1);
    }
  }

  function Widen(b: bv8): bv16 { (b as bv16) << 8 }

  lemma FourTops(w: bv16)
    ensures Tops(w, 4) == [Top(w), Top(Up(w)), Top(Up(Up(w))), Top(Up(Up(Up(w))))] && Ups(w, 4) == Up(Up(Up(Up(w))))
  {
    hide Top;
    hide Up;
    var w2 := Up(Up(w));
    assert Tops(w2, 2) == [Top(w2), Top(Up(w2))] && Ups(w2, 2) == Up(Up(w2));
  }

  lemma {:induction false} TopsTwice(w: bv16, m: nat, n: nat)
    ensures Tops(w, m + n) == Tops(w, m) + Tops(Ups(w, m), n) && Ups(w, m + n) == Ups(Ups(w, m), n)
    decreases m
  {
    hide Top;
    hide Up;
    if m > 0 {
      TopsTwice(Up(w), m - 1, n);
    }
  }

  lemma ByteTops(b: bv8)
    ensures Tops(Widen(b), 8) == BitsOf(b) && Ups(Widen(b), 8) == 0
  {
    hide Top;
    hide Up;
    hide Tops;
    hide Ups;
    hide Widen;
    var w := Widen(b);
    FourTops(w);
    FourTops(Up(Up(Up(Up(w)))));
    TopsTwice(w, 4, 4);
    ByteTop(b);
  }

  lemma ByteTop(b: bv8)
    ensures var w := Widen(b); var w4 := Up(Up(Up(Up(w))));
      && Top(w) == (b & 0x80 != 0) && Top(Up(w)) == (b & 0x40 != 0) && Top(Up(Up(w))) == (b & 0x20 != 0)
      && Top(Up(Up(Up(w)))) == (b & 0x10 != 0) && Top(w4) == (b & 8 != 0) && Top(Up(w4)) == (b & 4 != 0)
      && Top(Up(Up(w4))) == (b & 2 != 0) && Top(Up(Up(Up(w4)))) == (b & 1 != 0) && Up(Up(Up(Up(w4)))) == 0
  {
  }

  lemma DirectByte(r: bv16, b: bv8)
    ensures DirectAll(r, BitsOf(b)) == Times(Add(r, Widen(b)), 8)
  {
    TimesDirect(r, Widen(b), 8);
    ByteTops(b);
    AddNone(DirectAll(r, BitsOf(b)));
  }

  // No carry leaves the low byte.
  lemma LowByte(a: bv16)
    requires a < 0x100
    ensures Shift8(a) == a << 8
  {
  }
}
