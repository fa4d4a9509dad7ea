/** The check values of the three checksums: what they make of the nine bytes "123456789". */
module CrcVectors {
  import opened Words
  import opened Numbers
  import opened Crcs
  import opened HexWords

  // ---------- registers in hexadecimal ----------

  predicate BitIn(d: Digit, i: nat) {
    if i == 0 then d.s else if i == 1 then d.r else if i == 2 then d.q else d.p
  }

  predicate BitAt(x: Hex, i: nat)
    requires i < 32
  {
    BitIn(At(x, 7 - i / 4), i % 4)
  }

  /** The bits of a word, least significant first. */
  function Bits(x: Hex): (r: Register)
    ensures |r| == 32
  {
    seq(32, i requires 0 <= i < 32 => BitAt(x, i))
  }

  /** One place to the right; `top` comes in. */
  function Down(x: Hex, top: bool): Hex {
    Hex(Digit(top, x.g.p, x.g.q, x.g.r), Digit(x.g.s, x.h.p, x.h.q, x.h.r), Digit(x.h.s, x.i.p, x.i.q, x.i.r),
        Digit(x.i.s, x.j.p, x.j.q, x.j.r), Digit(x.j.s, x.k.p, x.k.q, x.k.r), Digit(x.k.s, x.l.p, x.l.q, x.l.r),
        Digit(x.l.s, x.m.p, x.m.q, x.m.r), Digit(x.m.s, x.n.p, x.n.q, x.n.r))
  }

  lemma DownAt(x: Hex, top: bool, i: nat)
    requires i < 32
    ensures BitAt(Down(x, top), i) == if i == 31 then top else BitAt(x, i + 1)
  {
  }

  lemma XorHexAt(x: Hex, y: Hex, i: nat)
    requires i < 32
    ensures BitAt(XorHex(x, y), i) == (BitAt(x, i) != BitAt(y, i))
  {
    AtOn(XorOp, x, y, 7 - i / 4);
  }

  /** What a word becomes when the polynomial's is subtracted from it, or not. */
  function Less(x: Hex, poly: Hex, subtract: bool): Hex {
    if subtract then XorHex(x, poly) else x
  }

  lemma LessAt(x: Hex, poly: Hex, subtract: bool, i: nat)
    requires i < 32
    ensures BitAt(Less(x, poly, subtract), i) == (BitAt(x, i) != (subtract && BitAt(poly, i)))
  {
    XorHexAt(x, poly, i);
  }

  function Fed(x: Hex, poly: Hex, bit: bool): Hex {
    Less(Down(x, false), poly, x.n.s != bit)
  }

  lemma FedIs(x: Hex, poly: Hex, bit: bool)
    ensures FeedBit(Bits(x), Bits(poly), bit) == Bits(Fed(x, poly, bit))
  {
    var r := FeedBit(Bits(x), Bits(poly), bit);
    forall i | 0 <= i < 32 ensures r[i] == BitAt(Fed(x, poly, bit), i) {
      DownAt(x, false, i);
      LessAt(Down(x, false), poly, x.n.s != bit, i);
    }
  }

  /** Feeds the bits of one digit. */
  function FedDigit(x: Hex, poly: Hex, d: Digit): Hex {
    Fed(Fed(Fed(Fed(x, poly, d.s), poly, d.r), poly, d.q), poly, d.p)
  }

  function BitsIn(d: Digit): seq<bool> {
    [d.s, d.r, d.q, d.p]
  }

  lemma FeedFirst(r: Register, poly: Register, bit: bool, rest: seq<bool>)
    requires 0 < |r| == |poly|
    ensures FeedBits(r, poly, [bit] + rest) == FeedBits(FeedBit(r, poly, bit), poly, rest)
  {
    assert ([bit] + rest)[1..] == rest;
  }

  lemma FourFed(r: Register, poly: Register, d: Digit)
    requires 0 < |r| == |poly|
    ensures FeedBits(r, poly, BitsIn(d)) ==
      FeedBit(FeedBit(FeedBit(FeedBit(r, poly, d.s), poly, d.r), poly, d.q), poly, d.p)
  {
    var r1 := FeedBit(r, poly, d.s);
    var r2 := FeedBit(r1, poly, d.r);
    FeedFirst(r, poly, d.s, [d.r, d.q, d.p]);
    FeedFirst(r1, poly, d.r, [d.q, d.p]);
    FeedFirst(r2, poly, d.q, [d.p]);
    FeedFirst(FeedBit(r2, poly, d.q), poly, d.p, []);
    assert BitsIn(d) == [d.s] + [d.r, d.q, d.p] && [d.r, d.q, d.p] == [d.r] + [d.q, d.p];
    assert [d.q, d.p] == [d.q] + [d.p] && [d.p] == [d.p] + [];
  }

  lemma FedDigitIs(x: Hex, poly: Hex, d: Digit)
    ensures FeedBits(Bits(x), Bits(poly), BitsIn(d)) == Bits(FedDigit(x, poly, d))
  {
    FourFed(Bits(x), Bits(poly), d);
    FedIs(x, poly, d.s);
    FedIs(Fed(x, poly, d.s), poly, d.r);
    FedIs(Fed(Fed(x, poly, d.s), poly, d.r), poly, d.q);
    FedIs(Fed(Fed(Fed(x, poly, d.s), poly, d.r), poly, d.q), poly, d.p);
  }

  /** The byte whose digits are `high` and `low`. */
  function ByteOf(high: Digit, low: Digit): Byte {
    BitsIn(low) + BitsIn(high)
  }

  /** A byte turns `x` to `z`. */
  predicate Turns8(x: Hex, poly: Hex, high: Digit, low: Digit, z: Hex) {
    FedDigit(FedDigit(x, poly, low), poly, high) == z
  }

  lemma FedByte(x: Hex, poly: Hex, high: Digit, low: Digit, z: Hex)
    requires Turns8(x, poly, high, low, z)
    ensures FeedBits(Bits(x), Bits(poly), ByteOf(high, low)) == Bits(z)
  {
    FedDigitIs(x, poly, low);
    FedDigitIs(FedDigit(x, poly, low), poly, high);
    FeedAppend(Bits(x), Bits(poly), BitsIn(low), BitsIn(high));
  }

  // ---------- 64 bits ----------

  datatype Wide = Wide(high: Hex, low: Hex)

  function WideBits(x: Wide): (r: Register)
    ensures |r| == 64
  {
    Bits(x.low) + Bits(x.high)
  }

  function WideFed(x: Wide, poly: Wide, bit: bool): Wide {
    var subtract := x.low.n.s != bit;
    Wide(Less(Down(x.high, false), poly.high, subtract), Less(Down(x.low, x.high.n.s), poly.low, subtract))
  }

  /** What a fed bit makes of bit `i`. */
  lemma FeedAt(r: Register, poly: Register, bit: bool, i: nat)
    requires i < |r| == |poly|
    ensures FeedBit(r, poly, bit)[i] == ((i + 1 < |r| && r[i + 1]) != (r[0] != bit && poly[i]))
  {
  }

  lemma WideBit(x: Wide, i: nat)
    requires i < 64
    ensures WideBits(x)[i] == if i < 32 then BitAt(x.low, i) else BitAt(x.high, i - 32)
  {
  }

  /** The bit above bit `i`, none above the top. */
  lemma WideNext(x: Wide, i: nat)
    requires i < 64
    ensures (i + 1 < 64 && WideBits(x)[i + 1]) ==
      if i < 32 then BitAt(Down(x.low, x.high.n.s), i) else BitAt(Down(x.high, false), i - 32)
  {
    if i + 1 < 64 {
      WideBit(x, i + 1);
    }
    if i < 32 {
      DownAt(x.low, x.high.n.s, i);
    } else {
      DownAt(x.high, false, i - 32);
    }
  }

  lemma WideFedAt(x: Wide, poly: Wide, bit: bool, i: nat)
    requires i < 64
    ensures FeedBit(WideBits(x), WideBits(poly), bit)[i] == WideBits(WideFed(x, poly, bit))[i]
  {
    FeedAt(WideBits(x), WideBits(poly), bit, i);
    WideBit(x, 0);
    WideNext(x, i);
    WideBit(poly, i);
    WideBit(WideFed(x, poly, bit), i);
    if i < 32 {
      LessAt(Down(x.low, x.high.n.s), poly.low, x.low.n.s != bit, i);
    } else {
      LessAt(Down(x.high, false), poly.high, x.low.n.s != bit, i - 32);
    }
  }

  lemma WideFedIs(x: Wide, poly: Wide, bit: bool)
    ensures FeedBit(WideBits(x), WideBits(poly), bit) == WideBits(WideFed(x, poly, bit))
  {
    var r, z := FeedBit(WideBits(x), WideBits(poly), bit), WideBits(WideFed(x, poly, bit));
    forall i | 0 <= i < 64 ensures r[i] == z[i] {
      WideFedAt(x, poly, bit, i);
    }
  }

  function WideFedDigit(x: Wide, poly: Wide, d: Digit): Wide {
    WideFed(WideFed(WideFed(WideFed(x, poly, d.s), poly, d.r), poly, d.q), poly, d.p)
  }

  lemma WideFedDigitIs(x: Wide, poly: Wide, d: Digit)
    ensures FeedBits(WideBits(x), WideBits(poly), BitsIn(d)) == WideBits(WideFedDigit(x, poly, d))
  {
    FourFed(WideBits(x), WideBits(poly), d);
    WideFedIs(x, poly, d.s);
    WideFedIs(WideFed(x, poly, d.s), poly, d.r);
    WideFedIs(WideFed(WideFed(x, poly, d.s), poly, d.r), poly, d.q);
    WideFedIs(WideFed(WideFed(WideFed(x, poly, d.s), poly, d.r), poly, d.q), poly, d.p);
  }

  predicate WideTurns8(x: Wide, poly: Wide, high: Digit, low: Digit, z: Wide) {
    WideFedDigit(WideFedDigit(x, poly, low), poly, high) == z
  }

  lemma WideFedByte(x: Wide, poly: Wide, high: Digit, low: Digit, z: Wide)
    requires WideTurns8(x, poly, high, low, z)
    ensures FeedBits(WideBits(x), WideBits(poly), ByteOf(high, low)) == WideBits(z)
  {
    WideFedDigitIs(x, poly, low);
    WideFedDigitIs(WideFedDigit(x, poly, low), poly, high);
    FeedAppend(WideBits(x), WideBits(poly), BitsIn(low), BitsIn(high));
  }

  // ---------- three bytes at a time ----------

  lemma FeedByte(r: Register, poly: Register, b: Byte, rest: seq<Byte>)
    requires 0 < |r| == |poly|
    ensures FeedBits(r, poly, Flat([b] + rest)) == FeedBits(FeedBits(r, poly, b), poly, Flat(rest))
  {
    FeedAppend(r, poly, b, Flat(rest));
    assert ([b] + rest)[1..] == rest;
  }

  lemma FeedThree(r: Register, poly: Register, a: Byte, b: Byte, c: Byte, rest: seq<Byte>)
    requires 0 < |r| == |poly|
    ensures FeedBits(r, poly, Flat([a, b, c] + rest)) ==
      FeedBits(FeedBits(FeedBits(FeedBits(r, poly, a), poly, b), poly, c), poly, Flat(rest))
  {
    var r1 := FeedBits(r, poly, a);
    FeedByte(r, poly, a, [b, c] + rest);
    FeedByte(r1, poly, b, [c] + rest);
    FeedByte(FeedBits(r1, poly, b), poly, c, rest);
    assert [a, b, c] + rest == [a] + ([b, c] + rest) && [b, c] + rest == [b] + ([c] + rest);
  }

  function Ieee(): Hex {
    Hex(XE, XD, XB, X8, X8, X3, X2, X0)
  }

  lemma Ieee1(rest: seq<Byte>)
    ensures FeedBits(Bits(Hex(XF, XF, XF, XF, XF, XF, XF, XF)), Bits(Ieee()),
                     Flat([ByteOf(X3, X1), ByteOf(X3, X2), ByteOf(X3, X3)] + rest)) ==
      FeedBits(Bits(Hex(X7, X7, XB, X7, X9, XC, X2, XD)), Bits(Ieee()), Flat(rest))
  {
    var x0 := Hex(XF, XF, XF, XF, XF, XF, XF, XF);
    var x1 := Hex(X7, XC, X2, X3, X1, X0, X4, X8);
    var x2 := Hex(XB, X0, XA, XC, XB, XB, X3, X2);
    var x3 := Hex(X7, X7, XB, X7, X9, XC, X2, XD);
    FeedThree(Bits(x0), Bits(Ieee()), ByteOf(X3, X1), ByteOf(X3, X2), ByteOf(X3, X3), rest);
    FedByte(x0, Ieee(), X3, X1, x1);
    FedByte(x1, Ieee(), X3, X2, x2);
    FedByte(x2, Ieee(), X3, X3, x3);
  }

  lemma Ieee2(rest: seq<Byte>)
    ensures FeedBits(Bits(Hex(X7, X7, XB, X7, X9, XC, X2, XD)), Bits(Ieee()),
                     Flat([ByteOf(X3, X4), ByteOf(X3, X5), ByteOf(X3, X6)] + rest)) ==
      FeedBits(Bits(Hex(XF, X6, X8, XD, X2, XC, X9, XE)), Bits(Ieee()), Flat(rest))
  {
    var x0 := Hex(X7, X7, XB, X7, X9, XC, X2, XD);
    var x1 := Hex(X6, X4, X1, XC, X1, XF, X5, XC);
    var x2 := Hex(X3, X4, X0, XA, XC, X5, XE, X3);
    var x3 := Hex(XF, X6, X8, XD, X2, XC, X9, XE);
    FeedThree(Bits(x0), Bits(Ieee()), ByteOf(X3, X4), ByteOf(X3, X5), ByteOf(X3, X6), rest);
    FedByte(x0, Ieee(), X3, X4, x1);
    FedByte(x1, Ieee(), X3, X5, x2);
    FedByte(x2, Ieee(), X3, X6, x3);
  }

  lemma Ieee3(rest: seq<Byte>)
    ensures FeedBits(Bits(Hex(XF, X6, X8, XD, X2, XC, X9, XE)), Bits(Ieee()),
                     Flat([ByteOf(X3, X7), ByteOf(X3, X8), ByteOf(X3, X9)] + rest)) ==
      FeedBits(Bits(Hex(X3, X4, X0, XB, XC, X6, XD, X9)), Bits(Ieee()), Flat(rest))
  {
    var x0 := Hex(XF, X6, X8, XD, X2, XC, X9, XE);
    var x1 := Hex(XA, XF, XF, XC, X9, X6, X6, X0);
    var x2 := Hex(X6, X5, X1, XF, X2, X5, X5, X0);
    var x3 := Hex(X3, X4, X0, XB, XC, X6, XD, X9);
    FeedThree(Bits(x0), Bits(Ieee()), ByteOf(X3, X7), ByteOf(X3, X8), ByteOf(X3, X9), rest);
    FedByte(x0, Ieee(), X3, X7, x1);
    FedByte(x1, Ieee(), X3, X8, x2);
    FedByte(x2, Ieee(), X3, X9, x3);
  }

  function Castagnoli(): Hex {
    Hex(X8, X2, XF, X6, X3, XB, X7, X8)
  }

  lemma Castagnoli1(rest: seq<Byte>)
    ensures FeedBits(Bits(Hex(XF, XF, XF, XF, XF, XF, XF, XF)), Bits(Castagnoli()),
                     Flat([ByteOf(X3, X1), ByteOf(X3, X2), ByteOf(X3, X3)] + rest)) ==
      FeedBits(Bits(Hex(XE, XF, X8, X4, XD, X0, X4, XD)), Bits(Castagnoli()), Flat(rest))
  {
    var x0 := Hex(XF, XF, XF, XF, XF, XF, XF, XF);
    var x1 := Hex(X6, XF, X0, XA, X6, X6, X1, XC);
    var x2 := Hex(X8, XC, XA, XA, X3, XB, X9, XF);
    var x3 := Hex(XE, XF, X8, X4, XD, X0, X4, XD);
    FeedThree(Bits(x0), Bits(Castagnoli()), ByteOf(X3, X1), ByteOf(X3, X2), ByteOf(X3, X3), rest);
    FedByte(x0, Castagnoli(), X3, X1, x1);
    FedByte(x1, Castagnoli(), X3, X2, x2);
    FedByte(x2, Castagnoli(), X3, X3, x3);
  }

  lemma Castagnoli2(rest: seq<Byte>)
    ensures FeedBits(Bits(Hex(XE, XF, X8, X4, XD, X0, X4, XD)), Bits(Castagnoli()),
                     Flat([ByteOf(X3, X4), ByteOf(X3, X5), ByteOf(X3, X6)] + rest)) ==
      FeedBits(Bits(Hex(XB, XE, XC, XA, X8, XE, X7, X9)), Bits(Castagnoli()), Flat(rest))
  {
    var x0 := Hex(XE, XF, X8, X4, XD, X0, X4, XD);
    var x1 := Hex(X0, X9, XC, X5, X0, XB, X1, X1);
    var x2 := Hex(XE, X7, X2, XE, XD, XC, XC, XA);
    var x3 := Hex(XB, XE, XC, XA, X8, XE, X7, X9);
    FeedThree(Bits(x0), Bits(Castagnoli()), ByteOf(X3, X4), ByteOf(X3, X5), ByteOf(X3, X6), rest);
    FedByte(x0, Castagnoli(), X3, X4, x1);
    FedByte(x1, Castagnoli(), X3, X5, x2);
    FedByte(x2, Castagnoli(), X3, X6, x3);
  }

  lemma Castagnoli3(rest: seq<Byte>)
    ensures FeedBits(Bits(Hex(XB, XE, XC, XA, X8, XE, X7, X9)), Bits(Castagnoli()),
                     Flat([ByteOf(X3, X7), ByteOf(X3, X8), ByteOf(X3, X9)] + rest)) ==
      FeedBits(Bits(Hex(X1, XC, XF, X9, X6, XD, X7, XC)), Bits(Castagnoli()), Flat(rest))
  {
    var x0 := Hex(XB, XE, XC, XA, X8, XE, X7, X9);
    var x1 := Hex(XE, XD, XB, XD, X6, X8, X1, X5);
    var x2 := Hex(X9, XF, X7, X8, X7, XF, X6, X5);
    var x3 := Hex(X1, XC, XF, X9, X6, XD, X7, XC);
    FeedThree(Bits(x0), Bits(Castagnoli()), ByteOf(X3, X7), ByteOf(X3, X8), ByteOf(X3, X9), rest);
    FedByte(x0, Castagnoli(), X3, X7, x1);
    FedByte(x1, Castagnoli(), X3, X8, x2);
    FedByte(x2, Castagnoli(), X3, X9, x3);
  }

  function Nvme(): Wide {
    Wide(Hex(X9, XA, X6, XC, X9, X3, X2, X9),
         Hex(XA, XC, X4, XB, XC, X9, XB, X5))
  }

  /** A register of 64 bits goes from the words `high`, `low` to `high'`, `low'` with the byte of two digits. */
  predicate NvmeTurns(high: Hex, low: Hex, first: Digit, second: Digit, high': Hex, low': Hex) {
    FeedBits(WideBits(Wide(high, low)), WideBits(Nvme()), ByteOf(first, second)) == WideBits(Wide(high', low'))
  }

  lemma Nvme1()
    ensures NvmeTurns(Hex(XF, XF, XF, XF, XF, XF, XF, XF),
                      Hex(XF, XF, XF, XF, XF, XF, XF, XF), X3, X1,
                      Hex(XD, XC, X6, XA, X5, XE, X3, XC),
                      Hex(XB, X9, XE, X4, X4, X1, X2, XD))
  {
    WideFedByte(Wide(Hex(XF, XF, XF, XF, XF, XF, XF, XF),
                     Hex(XF, XF, XF, XF, XF, XF, XF, XF)),
                Nvme(), X3, X1,
                Wide(Hex(XD, XC, X6, XA, X5, XE, X3, XC),
                     Hex(XB, X9, XE, X4, X4, X1, X2, XD)));
  }

  lemma Nvme2()
    ensures NvmeTurns(Hex(XD, XC, X6, XA, X5, XE, X3, XC),
                      Hex(XB, X9, XE, X4, X4, X1, X2, XD), X3, X2,
                      Hex(X9, X6, XF, X1, X8, XD, XF, XA),
                      Hex(X1, X4, X0, XC, X5, X8, XB, X1))
  {
    WideFedByte(Wide(Hex(XD, XC, X6, XA, X5, XE, X3, XC),
                     Hex(XB, X9, XE, X4, X4, X1, X2, XD)),
                Nvme(), X3, X2,
                Wide(Hex(X9, X6, XF, X1, X8, XD, XF, XA),
                     Hex(X1, X4, X0, XC, X5, X8, XB, X1)));
  }

  lemma Nvme3()
    ensures NvmeTurns(Hex(X9, X6, XF, X1, X8, XD, XF, XA),
                      Hex(X1, X4, X0, XC, X5, X8, XB, X1), X3, X3,
                      Hex(X6, X4, X2, X7, X8, X3, X3, X4),
                      Hex(X3, X6, X3, X4, XD, X7, X1, XF))
  {
    WideFedByte(Wide(Hex(X9, X6, XF, X1, X8, XD, XF, XA),
                     Hex(X1, X4, X0, XC, X5, X8, XB, X1)),
                Nvme(), X3, X3,
                Wide(Hex(X6, X4, X2, X7, X8, X3, X3, X4),
                     Hex(X3, X6, X3, X4, XD, X7, X1, XF)));
  }

  lemma Nvme4()
    ensures NvmeTurns(Hex(X6, X4, X2, X7, X8, X3, X3, X4),
                      Hex(X3, X6, X3, X4, XD, X7, X1, XF), X3, X4,
                      Hex(XD, X6, X0, XA, X2, X4, X1, X8),
                      Hex(X1, XD, X0, X0, X8, XE, X2, XB))
  {
    WideFedByte(Wide(Hex(X6, X4, X2, X7, X8, X3, X3, X4),
                     Hex(X3, X6, X3, X4, XD, X7, X1, XF)),
                Nvme(), X3, X4,
                Wide(Hex(XD, X6, X0, XA, X2, X4, X1, X8),
                     Hex(X1, XD, X0, X0, X8, XE, X2, XB)));
  }

  lemma Nvme5()
    ensures NvmeTurns(Hex(XD, X6, X0, XA, X2, X4, X1, X8),
                      Hex(X1, XD, X0, X0, X8, XE, X2, XB), X3, X5,
                      Hex(XE, X9, X9, X5, X1, XD, X4, X8),
                      Hex(X0, X0, X9, XD, X3, X5, X0, X7))
  {
    WideFedByte(Wide(Hex(XD, X6, X0, XA, X2, X4, X1, X8),
                     Hex(X1, XD, X0, X0, X8, XE, X2, XB)),
                Nvme(), X3, X5,
                Wide(Hex(XE, X9, X9, X5, X1, XD, X4, X8),
                     Hex(X0, X0, X9, XD, X3, X5, X0, X7)));
  }

  lemma Nvme6()
    ensures NvmeTurns(Hex(XE, X9, X9, X5, X1, XD, X4, X8),
                      Hex(X0, X0, X9, XD, X3, X5, X0, X7), X3, X6,
                      Hex(XF, X6, XA, X6, X6, X4, X9, X9),
                      Hex(XE, X1, XF, X7, XA, X4, XC, XF))
  {
    WideFedByte(Wide(Hex(XE, X9, X9, X5, X1, XD, X4, X8),
                     Hex(X0, X0, X9, XD, X3, X5, X0, X7)),
                Nvme(), X3, X6,
                Wide(Hex(XF, X6, XA, X6, X6, X4, X9, X9),
                     Hex(XE, X1, XF, X7, XA, X4, XC, XF)));
  }

  lemma Nvme7()
    ensures NvmeTurns(Hex(XF, X6, XA, X6, X6, X4, X9, X9),
                      Hex(XE, X1, XF, X7, XA, X4, XC, XF), X3, X7,
                      Hex(X6, X2, XF, XD, X0, X2, X0, X8),
                      Hex(XB, XE, X1, X2, X5, XD, X8, X8))
  {
    WideFedByte(Wide(Hex(XF, X6, XA, X6, X6, X4, X9, X9),
                     Hex(XE, X1, XF, X7, XA, X4, XC, XF)),
                Nvme(), X3, X7,
                Wide(Hex(X6, X2, XF, XD, X0, X2, X0, X8),
                     Hex(XB, XE, X1, X2, X5, XD, X8, X8)));
  }

  lemma Nvme8()
    ensures NvmeTurns(Hex(X6, X2, XF, XD, X0, X2, X0, X8),
                      Hex(XB, XE, X1, X2, X5, XD, X8, X8), X3, X8,
                      Hex(X1, X3, X2, XF, X6, XF, X6, X7),
                      Hex(X3, XD, X3, X7, X6, XB, X6, XB))
  {
    WideFedByte(Wide(Hex(X6, X2, XF, XD, X0, X2, X0, X8),
                     Hex(XB, XE, X1, X2, X5, XD, X8, X8)),
                Nvme(), X3, X8,
                Wide(Hex(X1, X3, X2, XF, X6, XF, X6, X7),
                     Hex(X3, XD, X3, X7, X6, XB, X6, XB)));
  }

  lemma Nvme9()
    ensures NvmeTurns(Hex(X1, X3, X2, XF, X6, XF, X6, X7),
                      Hex(X3, XD, X3, X7, X6, XB, X6, XB), X3, X9,
                      Hex(X5, X1, X7, X4, XE, XB, X7, X9),
                      Hex(XF, X5, X8, X6, X6, X7, X7, X7))
  {
    WideFedByte(Wide(Hex(X1, X3, X2, XF, X6, XF, X6, X7),
                     Hex(X3, XD, X3, X7, X6, XB, X6, XB)),
                Nvme(), X3, X9,
                Wide(Hex(X5, X1, X7, X4, XE, XB, X7, X9),
                     Hex(XF, X5, X8, X6, X6, X7, X7, X7)));
  }

  // ---------- the check values ----------

  lemma DigitBits(d: Digit, i: nat)
    requires i < 4
    ensures DigitBit(DigitValue(d), i) == BitIn(d, i)
  {
  }

  lemma {:induction false} FrontBit(x: Hex, n: nat, i: nat)
    requires n <= 8 && i < 4 * n
    ensures BitOf(Front(x, n), i) == BitIn(At(x, n - 1 - i / 4), i % 4)
  {
    DigitFits(At(x, n - 1));
    HexBit(Front(x, n - 1), DigitValue(At(x, n - 1)), i);
    if i < 4 {
      DigitBits(At(x, n - 1), i);
    } else {
      FrontBit(x, n - 1, i - 4);
    }
  }

  lemma DigitFits(d: Digit)
    ensures DigitValue(d) < 16
  {
  }

  lemma BitsOfFront(x: Hex)
    ensures BitsOf(Front(x, 8), 32) == Bits(x)
  {
    forall i | 0 <= i < 32 ensures BitOf(Front(x, 8), i) == BitAt(x, i) {
      FrontBit(x, 8, i);
    }
  }

  lemma NumberBack(v: nat, n: nat)
    requires v < Pow2(n)
    ensures FromBits(BitsOf(v, n)) == v
  {
    SameBits(v, n);
    BitsRoundTrip(v, n);
  }

  lemma WordNumber(x: Hex)
    ensures FromBits(Bits(x)) == Value(x)
  {
    BitsOfValue(x);
    NumberBack(Value(x), 32);
  }

  lemma BitsOfValue(x: Hex)
    ensures BitsOf(Value(x), 32) == Bits(x) && Value(x) < Pow2(32)
  {
    BitsOfFront(x);
    FrontIsValue(x);
    NotOfValue(x);
    Pow2Values();
  }

  lemma {:induction false} SameBits(v: nat, n: nat)
    ensures ToBits(v, n) == BitsOf(v, n)
  {
    if n > 0 {
      SameBits(v / 2, n - 1);
    }
  }

  lemma {:induction false} JoinedBit(high: nat, low: nat, n: nat, i: nat)
    requires low < Pow2(n)
    ensures BitOf(high * Pow2(n) + low, i) == if i < n then BitOf(low, i) else BitOf(high, i - n)
    decreases n
  {
    if n > 0 {
      var m := high * Pow2(n - 1);
      assert high * Pow2(n) == 2 * m;
      assert (2 * m + low) / 2 == m + low / 2 && (2 * m + low) % 2 == low % 2;
      if i > 0 {
        JoinedBit(high, low / 2, n - 1, i - 1);
      }
    }
  }

  lemma JoinedBits(high: nat, low: nat)
    requires low < Pow2(32)
    ensures BitsOf(high * Pow2(32) + low, 64) == BitsOf(low, 32) + BitsOf(high, 32)
  {
    forall i | 0 <= i < 64
      ensures BitOf(high * Pow2(32) + low, i) == (BitsOf(low, 32) + BitsOf(high, 32))[i]
    {
      JoinedBit(high, low, 32, i);
    }
  }

  function Both(high: nat, low: nat): nat {
    0x1_0000_0000 * high + low
  }

  function WideValue(x: Wide): nat {
    Both(Value(x.high), Value(x.low))
  }

  lemma BitsOfWords(high: nat, low: nat, x: Wide)
    requires low < Pow2(32) && BitsOf(high, 32) == Bits(x.high) && BitsOf(low, 32) == Bits(x.low)
    ensures BitsOf(Both(high, low), 64) == WideBits(x)
  {
    Pow2Values();
    JoinedBits(high, low);
  }

  lemma BitsOfWide(x: Wide)
    ensures BitsOf(WideValue(x), 64) == WideBits(x)
  {
    BitsOfValue(x.high);
    BitsOfValue(x.low);
    BitsOfWords(Value(x.high), Value(x.low), x);
  }

  lemma JoinedFits(high: nat, low: nat)
    requires high < Pow2(32) && low < Pow2(32)
    ensures Both(high, low) < Pow2(64)
  {
    Pow2Values();
    assert (high + 1) * Pow2(32) <= Pow2(32) * Pow2(32);
  }

  lemma WideNumber(x: Wide)
    ensures FromBits(WideBits(x)) == WideValue(x)
  {
    BitsOfWide(x);
    BitsOfValue(x.high);
    BitsOfValue(x.low);
    Pow2Values();
    JoinedFits(Value(x.high), Value(x.low));
    NumberBack(WideValue(x), 64);
  }

  lemma NotBits(x: Hex)
    ensures Complement(Bits(x)) == Bits(NotHex(x))
  {
    forall i | 0 <= i < 32 ensures BitAt(NotHex(x), i) == !BitAt(x, i) {
      NotAt(x, 7 - i / 4);
    }
  }

  lemma NotAt(x: Hex, j: nat)
    requires j < 8
    ensures At(NotHex(x), j) == NotDigit(At(x, j))
  {
  }

  lemma NotWideBits(x: Wide)
    ensures Complement(WideBits(x)) == WideBits(WideNot(x))
  {
    NotBits(x.high);
    NotBits(x.low);
  }

  lemma DigitFirst(d: Digit, rest: seq<bool>)
    ensures FromBits(BitsIn(d) + rest) == DigitValue(d) + 16 * FromBits(rest)
  {
    var b3 := [d.p] + rest;
    var b2 := [d.q] + b3;
    var b1 := [d.r] + b2;
    assert BitsIn(d) + rest == [d.s] + b1;
    FromFirst(d.s, b1);
    FromFirst(d.r, b2);
    FromFirst(d.q, b3);
    FromFirst(d.p, rest);
  }

  lemma FromFirst(bit: bool, rest: seq<bool>)
    ensures FromBits([bit] + rest) == (if bit then 1 else 0) + 2 * FromBits(rest)
  {
    assert ([bit] + rest)[1..] == rest;
  }

  /** The byte of two digits. */
  lemma ByteValue(high: Digit, low: Digit)
    ensures ByteOf(high, low) == ToBits(16 * DigitValue(high) + DigitValue(low), 8)
  {
    DigitFirst(low, BitsIn(high));
    DigitFirst(high, []);
    assert BitsIn(high) + [] == BitsIn(high);
    NumberRoundTrip(ByteOf(high, low));
  }

  /** The nine bytes. */
  function Nine(): (r: seq<Byte>)
    ensures |r| == 9
  {
    seq(9, i requires 0 <= i < 9 => ToBits(0x31 + i, 8))
  }

  lemma NineDigits()
    ensures Nine() == [ByteOf(X3, X1), ByteOf(X3, X2), ByteOf(X3, X3)] +
      ([ByteOf(X3, X4), ByteOf(X3, X5), ByteOf(X3, X6)] + ([ByteOf(X3, X7), ByteOf(X3, X8), ByteOf(X3, X9)] + []))
  {
    ByteValue(X3, X1);
    ByteValue(X3, X2);
    ByteValue(X3, X3);
    ByteValue(X3, X4);
    ByteValue(X3, X5);
    ByteValue(X3, X6);
    ByteValue(X3, X7);
    ByteValue(X3, X8);
    ByteValue(X3, X9);
  }

  lemma FirstWord()
    ensures Complement(BitsOf(0, 32)) == Bits(Hex(XF, XF, XF, XF, XF, XF, XF, XF))
  {
    var zero := Hex(X0, X0, X0, X0, X0, X0, X0, X0);
    BitsOfValue(zero);
    NotBits(zero);
  }

  /** A checksum of 32 bits whose register ends at `last`. */
  lemma WordCheck(poly: Register, data: seq<Byte>, last: Hex)
    requires |poly| == 32 && FeedBits(Bits(Hex(XF, XF, XF, XF, XF, XF, XF, XF)), poly, Flat(data)) == Bits(last)
    ensures Crc32Of(poly, data, 0) == Value(NotHex(last))
  {
    FirstWord();
    NotBits(last);
    WordNumber(NotHex(last));
  }

  function WideNot(x: Wide): Wide {
    Wide(NotHex(x.high), NotHex(x.low))
  }

  lemma FirstWide()
    ensures Complement(BitsOf(0, 64)) == WideBits(Wide(Hex(XF, XF, XF, XF, XF, XF, XF, XF),
                                                       Hex(XF, XF, XF, XF, XF, XF, XF, XF)))
  {
    var none := Hex(X0, X0, X0, X0, X0, X0, X0, X0);
    BitsOfWide(Wide(none, none));
    NotWideBits(Wide(none, none));
  }

  lemma WideCheck(poly: Register, data: seq<Byte>, last: Wide)
    requires |poly| == 64
    requires FeedBits(WideBits(Wide(Hex(XF, XF, XF, XF, XF, XF, XF, XF),
                                    Hex(XF, XF, XF, XF, XF, XF, XF, XF))), poly, Flat(data)) == WideBits(last)
    ensures FromBits(Crc(poly, data, BitsOf(0, 64))) == WideValue(WideNot(last))
  {
    FirstWide();
    NotWideBits(last);
    WideNumber(WideNot(last));
  }

  lemma IeeeFed()
    ensures FeedBits(Bits(Hex(XF, XF, XF, XF, XF, XF, XF, XF)), Bits(Ieee()), Flat(Nine())) ==
      Bits(Hex(X3, X4, X0, XB, XC, X6, XD, X9))
  {
    NineDigits();
    Ieee1([ByteOf(X3, X4), ByteOf(X3, X5), ByteOf(X3, X6)] + ([ByteOf(X3, X7), ByteOf(X3, X8), ByteOf(X3, X9)] + []));
    Ieee2([ByteOf(X3, X7), ByteOf(X3, X8), ByteOf(X3, X9)] + []);
    Ieee3([]);
    assert Flat([]) == [];
  }

  lemma IeeePoly()
    ensures Poly32() == Bits(Ieee())
  {
    BitsOfValue(Ieee());
  }

  lemma IeeeLast()
    ensures Value(NotHex(Hex(X3, X4, X0, XB, XC, X6, XD, X9))) == 0xCBF4_3926
  {
  }

  lemma IeeeCheck()
    ensures Crc32Of(Poly32(), Nine(), 0) == 0xCBF4_3926
  {
    IeeePoly();
    IeeeFed();
    WordCheck(Poly32(), Nine(), Hex(X3, X4, X0, XB, XC, X6, XD, X9));
    IeeeLast();
  }

  lemma CastagnoliFed()
    ensures FeedBits(Bits(Hex(XF, XF, XF, XF, XF, XF, XF, XF)), Bits(Castagnoli()), Flat(Nine())) ==
      Bits(Hex(X1, XC, XF, X9, X6, XD, X7, XC))
  {
    NineDigits();
    Castagnoli1([ByteOf(X3, X4), ByteOf(X3, X5), ByteOf(X3, X6)] + ([ByteOf(X3, X7), ByteOf(X3, X8), ByteOf(X3, X9)] + []));
    Castagnoli2([ByteOf(X3, X7), ByteOf(X3, X8), ByteOf(X3, X9)] + []);
    Castagnoli3([]);
    assert Flat([]) == [];
  }

  lemma CastagnoliPoly()
    ensures Poly32C() == Bits(Castagnoli())
  {
    BitsOfValue(Castagnoli());
  }

  lemma CastagnoliLast()
    ensures Value(NotHex(Hex(X1, XC, XF, X9, X6, XD, X7, XC))) == 0xE306_9283
  {
  }

  lemma CastagnoliCheck()
    ensures Crc32Of(Poly32C(), Nine(), 0) == 0xE306_9283
  {
    CastagnoliPoly();
    CastagnoliFed();
    WordCheck(Poly32C(), Nine(), Hex(X1, XC, XF, X9, X6, XD, X7, XC));
    CastagnoliLast();
  }

  lemma NvmeFed()
    ensures FeedBits(WideBits(Wide(Hex(XF, XF, XF, XF, XF, XF, XF, XF),
                                   Hex(XF, XF, XF, XF, XF, XF, XF, XF))), WideBits(Nvme()), Flat(Nine())) ==
      WideBits(Wide(Hex(X5, X1, X7, X4, XE, XB, X7, X9), Hex(XF, X5, X8, X6, X6, X7, X7, X7)))
  {
    NineDigits();
    var r, p := WideBits(Wide(Hex(XF, XF, XF, XF, XF, XF, XF, XF), Hex(XF, XF, XF, XF, XF, XF, XF, XF))), WideBits(Nvme());
    var r3 := FeedBits(FeedBits(FeedBits(r, p, ByteOf(X3, X1)), p, ByteOf(X3, X2)), p, ByteOf(X3, X3));
    var r6 := FeedBits(FeedBits(FeedBits(r3, p, ByteOf(X3, X4)), p, ByteOf(X3, X5)), p, ByteOf(X3, X6));
    FeedThree(r, p, ByteOf(X3, X1), ByteOf(X3, X2), ByteOf(X3, X3),
              [ByteOf(X3, X4), ByteOf(X3, X5), ByteOf(X3, X6)] + ([ByteOf(X3, X7), ByteOf(X3, X8), ByteOf(X3, X9)] + []));
    FeedThree(r3, p, ByteOf(X3, X4), ByteOf(X3, X5), ByteOf(X3, X6), [ByteOf(X3, X7), ByteOf(X3, X8), ByteOf(X3, X9)] + []);
    FeedThree(r6, p, ByteOf(X3, X7), ByteOf(X3, X8), ByteOf(X3, X9), []);
    Nvme1();
    Nvme2();
    Nvme3();
    Nvme4();
    Nvme5();
    Nvme6();
    Nvme7();
    Nvme8();
    Nvme9();
    assert Flat([]) == [];
  }

  lemma NvmePoly()
    ensures Poly64Nvme() == WideBits(Nvme())
  {
    BitsOfWide(Nvme());
  }

  lemma NvmeLast()
    ensures WideValue(WideNot(Wide(Hex(X5, X1, X7, X4, XE, XB, X7, X9),
                                   Hex(XF, X5, X8, X6, X6, X7, X7, X7)))) == 0xAE8B_1486_0A79_9888
  {
  }

  lemma NvmeCheck()
    ensures FromBits(Crc(Poly64Nvme(), Nine(), BitsOf(0, 64))) == 0xAE8B_1486_0A79_9888
  {
    NvmePoly();
    NvmeFed();
    WideCheck(Poly64Nvme(), Nine(), Wide(Hex(X5, X1, X7, X4, XE, XB, X7, X9), Hex(XF, X5, X8, X6, X6, X7, X7, X7)));
    NvmeLast();
  }
}
