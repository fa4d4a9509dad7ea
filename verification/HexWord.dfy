/** Words of the MD5 reference as eight hexadecimal digits, each digit as four bits: what its operations on
    words do digit by digit. */
module HexWords {
  import opened Md5Reference

  /** A hexadecimal digit by its bits, the high one first. */
  datatype Digit = Digit(p: bool, q: bool, r: bool, s: bool)

  /** A word in hexadecimal. */
  datatype Hex = Hex(g: Digit, h: Digit, i: Digit, j: Digit, k: Digit, l: Digit, m: Digit, n: Digit)

  const X0 := Digit(false, false, false, false)
  const X1 := Digit(false, false, false, true)
  const X2 := Digit(false, false, true, false)
  const X3 := Digit(false, false, true, true)
  const X4 := Digit(false, true, false, false)
  const X5 := Digit(false, true, false, true)
  const X6 := Digit(false, true, true, false)
  const X7 := Digit(false, true, true, true)
  const X8 := Digit(true, false, false, false)
  const X9 := Digit(true, false, false, true)
  const XA := Digit(true, false, true, false)
  const XB := Digit(true, false, true, true)
  const XC := Digit(true, true, false, false)
  const XD := Digit(true, true, false, true)
  const XE := Digit(true, true, true, false)
  const XF := Digit(true, true, true, true)

  function One(b: bool): nat {
    if b then 1 else 0
  }

  function DigitValue(x: Digit): nat {
    (if x.p then 8 else 0) + (if x.q then 4 else 0) + (if x.r then 2 else 0) + (if x.s then 1 else 0)
  }

  function Sum(g: nat, h: nat, i: nat, j: nat, k: nat, l: nat, m: nat, n: nat): nat {
    0x1000_0000 * g + 0x100_0000 * h + 0x10_0000 * i + 0x1_0000 * j + 0x1000 * k + 0x100 * l + 0x10 * m + n
  }

  function Value(x: Hex): nat {
    Sum(DigitValue(x.g), DigitValue(x.h), DigitValue(x.i), DigitValue(x.j),
        DigitValue(x.k), DigitValue(x.l), DigitValue(x.m), DigitValue(x.n))
  }

  datatype Op = AndOp | OrOp | XorOp

  function OnBit(o: Op, p: bool, q: bool): bool {
    match o
    case AndOp => p && q
    case OrOp => p || q
    case XorOp => p != q
  }

  function OnNumber(o: Op, x: nat, y: nat): nat {
    match o
    case AndOp => And(x, y)
    case OrOp => Or(x, y)
    case XorOp => Xor(x, y)
  }

  function OnDigit(o: Op, x: Digit, y: Digit): Digit {
    Digit(OnBit(o, x.p, y.p), OnBit(o, x.q, y.q), OnBit(o, x.r, y.r), OnBit(o, x.s, y.s))
  }

  function OnHex(o: Op, x: Hex, y: Hex): Hex {
    Hex(OnDigit(o, x.g, y.g), OnDigit(o, x.h, y.h), OnDigit(o, x.i, y.i), OnDigit(o, x.j, y.j),
        OnDigit(o, x.k, y.k), OnDigit(o, x.l, y.l), OnDigit(o, x.m, y.m), OnDigit(o, x.n, y.n))
  }

  function NotDigit(x: Digit): Digit {
    Digit(!x.p, !x.q, !x.r, !x.s)
  }

  function NotHex(x: Hex): Hex {
    Hex(NotDigit(x.g), NotDigit(x.h), NotDigit(x.i), NotDigit(x.j),
        NotDigit(x.k), NotDigit(x.l), NotDigit(x.m), NotDigit(x.n))
  }

  lemma AndMore(x: nat, y: nat, p: bool, q: bool)
    ensures And(2 * x + One(p), 2 * y + One(q)) == 2 * And(x, y) + One(p && q)
  {
  }

  lemma OrMore(x: nat, y: nat, p: bool, q: bool)
    ensures Or(2 * x + One(p), 2 * y + One(q)) == 2 * Or(x, y) + One(p || q)
  {
  }

  lemma XorMore(x: nat, y: nat, p: bool, q: bool)
    ensures Xor(2 * x + One(p), 2 * y + One(q)) == 2 * Xor(x, y) + One(p != q)
  {
  }

  /** Two numbers with one bit more. */
  lemma MoreBits(o: Op, x: nat, y: nat, p: bool, q: bool)
    ensures OnNumber(o, 2 * x + One(p), 2 * y + One(q)) == 2 * OnNumber(o, x, y) + One(OnBit(o, p, q))
  {
    match o
    case AndOp => AndMore(x, y, p, q);
    case OrOp => OrMore(x, y, p, q);
    case XorOp => XorMore(x, y, p, q);
  }

  /** The first `n` digits. */
  function Front(x: Hex, n: nat): nat
    requires n <= 8
  {
    if n == 0 then 0 else 16 * Front(x, n - 1) + DigitValue(At(x, n - 1))
  }

  function At(x: Hex, j: nat): Digit
    requires j < 8
  {
    match j
    case 0 => x.g
    case 1 => x.h
    case 2 => x.i
    case 3 => x.j
    case 4 => x.k
    case 5 => x.l
    case 6 => x.m
    case _ => x.n
  }

  lemma TwoMoreBits(o: Op, x: nat, y: nat, p: bool, q: bool, r: bool, s: bool)
    ensures OnNumber(o, 4 * x + 2 * One(p) + One(r), 4 * y + 2 * One(q) + One(s)) ==
      4 * OnNumber(o, x, y) + 2 * One(OnBit(o, p, q)) + One(OnBit(o, r, s))
  {
    var x', y' := 2 * x + One(p), 2 * y + One(q);
    MoreBits(o, x, y, p, q);
    MoreBits(o, x', y', r, s);
    assert 2 * x' + One(r) == 4 * x + 2 * One(p) + One(r) && 2 * y' + One(s) == 4 * y + 2 * One(q) + One(s);
  }

  /** Two numbers with one digit more. */
  lemma MoreDigits(o: Op, x: nat, y: nat, z: nat, d: Digit, e: Digit)
    requires z == OnNumber(o, x, y)
    ensures OnNumber(o, 16 * x + DigitValue(d), 16 * y + DigitValue(e)) == 16 * z + DigitValue(OnDigit(o, d, e))
  {
    var x', y' := 4 * x + 2 * One(d.p) + One(d.q), 4 * y + 2 * One(e.p) + One(e.q);
    TwoMoreBits(o, x, y, d.p, e.p, d.q, e.q);
    TwoMoreBits(o, x', y', d.r, e.r, d.s, e.s);
    assert 4 * x' + 2 * One(d.r) + One(d.s) == 16 * x + DigitValue(d);
    assert 4 * y' + 2 * One(e.r) + One(e.s) == 16 * y + DigitValue(e);
  }

  lemma AtOn(o: Op, x: Hex, y: Hex, j: nat)
    requires j < 8
    ensures At(OnHex(o, x, y), j) == OnDigit(o, At(x, j), At(y, j))
  {
  }

  lemma {:induction false} OnFront(o: Op, x: Hex, y: Hex, n: nat)
    requires n <= 8
    ensures OnNumber(o, Front(x, n), Front(y, n)) == Front(OnHex(o, x, y), n)
  {
    if n > 0 {
      OnFront(o, x, y, n - 1);
      AtOn(o, x, y, n - 1);
      MoreDigits(o, Front(x, n - 1), Front(y, n - 1), Front(OnHex(o, x, y), n - 1), At(x, n - 1), At(y, n - 1));
    }
  }

  lemma FrontHalf(x: Hex)
    ensures Front(x, 4) == 0x1000 * DigitValue(x.g) + 0x100 * DigitValue(x.h) + 0x10 * DigitValue(x.i) + DigitValue(x.j)
  {
    assert Front(x, 1) == DigitValue(x.g);
    assert Front(x, 2) == 0x10 * DigitValue(x.g) + DigitValue(x.h);
    assert Front(x, 3) == 16 * Front(x, 2) + DigitValue(x.i);
  }

  lemma FrontIsValue(x: Hex)
    ensures Front(x, 8) == Value(x)
  {
    FrontHalf(x);
    assert Front(x, 5) == 16 * Front(x, 4) + DigitValue(x.k);
    assert Front(x, 6) == 16 * Front(x, 5) + DigitValue(x.l);
    assert Front(x, 7) == 16 * Front(x, 6) + DigitValue(x.m);
    assert Front(x, 8) == 16 * Front(x, 7) + DigitValue(x.n);
  }

  lemma OnValues(o: Op, x: Hex, y: Hex)
    ensures OnNumber(o, Value(x), Value(y)) == Value(OnHex(o, x, y))
  {
    OnFront(o, x, y, 8);
    FrontIsValue(x);
    FrontIsValue(y);
    FrontIsValue(OnHex(o, x, y));
  }

  lemma NotOfDigit(x: Digit)
    ensures DigitValue(NotDigit(x)) == 15 - DigitValue(x) && DigitValue(x) < 16
  {
  }

  lemma NotOfSum(g: nat, h: nat, i: nat, j: nat, k: nat, l: nat, m: nat, n: nat)
    requires g < 16 && h < 16 && i < 16 && j < 16 && k < 16 && l < 16 && m < 16 && n < 16
    ensures Not(Sum(g, h, i, j, k, l, m, n)) == Sum(15 - g, 15 - h, 15 - i, 15 - j, 15 - k, 15 - l, 15 - m, 15 - n)
    ensures Sum(g, h, i, j, k, l, m, n) < M32
  {
  }

  lemma NotOfValue(x: Hex)
    ensures Not(Value(x)) == Value(NotHex(x)) && Value(x) < M32
  {
    NotOfDigit(x.g);
    NotOfDigit(x.h);
    NotOfDigit(x.i);
    NotOfDigit(x.j);
    NotOfDigit(x.k);
    NotOfDigit(x.l);
    NotOfDigit(x.m);
    NotOfDigit(x.n);
    NotOfSum(DigitValue(x.g), DigitValue(x.h), DigitValue(x.i), DigitValue(x.j),
             DigitValue(x.k), DigitValue(x.l), DigitValue(x.m), DigitValue(x.n));
  }

  // ---------- one operation ----------

  function AndHex(x: Hex, y: Hex): Hex { OnHex(AndOp, x, y) }
  function OrHex(x: Hex, y: Hex): Hex { OnHex(OrOp, x, y) }
  function XorHex(x: Hex, y: Hex): Hex { OnHex(XorOp, x, y) }

  function AuxiliaryDigit(i: nat, x: Digit, y: Digit, z: Digit): Digit {
    if i < 16 then
      Digit(if x.p then y.p else z.p, if x.q then y.q else z.q, if x.r then y.r else z.r, if x.s then y.s else z.s)
    else if i < 32 then
      Digit(if z.p then x.p else y.p, if z.q then x.q else y.q, if z.r then x.r else y.r, if z.s then x.s else y.s)
    else if i < 48 then
      Digit((x.p == y.p) == z.p, (x.q == y.q) == z.q, (x.r == y.r) == z.r, (x.s == y.s) == z.s)
    else
      Digit(y.p != (x.p || !z.p), y.q != (x.q || !z.q), y.r != (x.r || !z.r), y.s != (x.s || !z.s))
  }

  function AuxiliaryHex(i: nat, x: Hex, y: Hex, z: Hex): Hex {
    Hex(AuxiliaryDigit(i, x.g, y.g, z.g), AuxiliaryDigit(i, x.h, y.h, z.h),
        AuxiliaryDigit(i, x.i, y.i, z.i), AuxiliaryDigit(i, x.j, y.j, z.j),
        AuxiliaryDigit(i, x.k, y.k, z.k), AuxiliaryDigit(i, x.l, y.l, z.l),
        AuxiliaryDigit(i, x.m, y.m, z.m), AuxiliaryDigit(i, x.n, y.n, z.n))
  }

  lemma DigitChoices(x: Digit, y: Digit, z: Digit)
    ensures AuxiliaryDigit(0, x, y, z) == OnDigit(OrOp, OnDigit(AndOp, x, y), OnDigit(AndOp, NotDigit(x), z))
    ensures AuxiliaryDigit(16, x, y, z) == OnDigit(OrOp, OnDigit(AndOp, x, z), OnDigit(AndOp, y, NotDigit(z)))
  {
  }

  lemma DigitParities(x: Digit, y: Digit, z: Digit)
    ensures AuxiliaryDigit(32, x, y, z) == OnDigit(XorOp, OnDigit(XorOp, x, y), z)
    ensures AuxiliaryDigit(48, x, y, z) == OnDigit(XorOp, y, OnDigit(OrOp, x, NotDigit(z)))
  {
  }

  lemma HexChoices(x: Hex, y: Hex, z: Hex)
    ensures AuxiliaryHex(0, x, y, z) == OrHex(AndHex(x, y), AndHex(NotHex(x), z))
    ensures AuxiliaryHex(16, x, y, z) == OrHex(AndHex(x, z), AndHex(y, NotHex(z)))
  {
    DigitChoices(x.g, y.g, z.g);
    DigitChoices(x.h, y.h, z.h);
    DigitChoices(x.i, y.i, z.i);
    DigitChoices(x.j, y.j, z.j);
    DigitChoices(x.k, y.k, z.k);
    DigitChoices(x.l, y.l, z.l);
    DigitChoices(x.m, y.m, z.m);
    DigitChoices(x.n, y.n, z.n);
  }

  lemma HexParities(x: Hex, y: Hex, z: Hex)
    ensures AuxiliaryHex(32, x, y, z) == XorHex(XorHex(x, y), z)
    ensures AuxiliaryHex(48, x, y, z) == XorHex(y, OrHex(x, NotHex(z)))
  {
    DigitParities(x.g, y.g, z.g);
    DigitParities(x.h, y.h, z.h);
    DigitParities(x.i, y.i, z.i);
    DigitParities(x.j, y.j, z.j);
    DigitParities(x.k, y.k, z.k);
    DigitParities(x.l, y.l, z.l);
    DigitParities(x.m, y.m, z.m);
    DigitParities(x.n, y.n, z.n);
  }

  lemma Choices(x: Hex, y: Hex, z: Hex)
    ensures F(Value(x), Value(y), Value(z)) == Value(OrHex(AndHex(x, y), AndHex(NotHex(x), z)))
    ensures G(Value(x), Value(y), Value(z)) == Value(OrHex(AndHex(x, z), AndHex(y, NotHex(z))))
  {
    NotOfValue(x);
    NotOfValue(z);
    OnValues(AndOp, x, y);
    OnValues(AndOp, NotHex(x), z);
    OnValues(OrOp, AndHex(x, y), AndHex(NotHex(x), z));
    OnValues(AndOp, x, z);
    OnValues(AndOp, y, NotHex(z));
    OnValues(OrOp, AndHex(x, z), AndHex(y, NotHex(z)));
  }

  lemma Parities(x: Hex, y: Hex, z: Hex)
    ensures H(Value(x), Value(y), Value(z)) == Value(XorHex(XorHex(x, y), z))
    ensures I(Value(x), Value(y), Value(z)) == Value(XorHex(y, OrHex(x, NotHex(z))))
  {
    NotOfValue(z);
    OnValues(XorOp, x, y);
    OnValues(XorOp, XorHex(x, y), z);
    OnValues(OrOp, x, NotHex(z));
    OnValues(XorOp, y, OrHex(x, NotHex(z)));
  }

  lemma SameRound(i: nat, x: Hex, y: Hex, z: Hex) returns (first: nat)
    ensures first == (if i < 16 then 0 else if i < 32 then 16 else if i < 48 then 32 else 48)
    ensures AuxiliaryHex(i, x, y, z) == AuxiliaryHex(first, x, y, z)
  {
    first := if i < 16 then 0 else if i < 32 then 16 else if i < 48 then 32 else 48;
  }

  lemma AuxiliaryIs(i: nat, x: Hex, y: Hex, z: Hex)
    ensures Auxiliary(i, Value(x), Value(y), Value(z)) == Value(AuxiliaryHex(i, x, y, z))
  {
    var first := SameRound(i, x, y, z);
    if i < 32 {
      HexChoices(x, y, z);
      Choices(x, y, z);
    } else {
      HexParities(x, y, z);
      Parities(x, y, z);
    }
  }
}
