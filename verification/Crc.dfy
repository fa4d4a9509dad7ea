/** The three checksums: CRC-32 (IEEE 802.3), CRC-32C (Castagnoli) and CRC-64/NVME.

    All are reflected, table-driven and complemented on the way in and out; they differ only in
    register width and polynomial, so the register is a sequence of bits, least significant first,
    and everything is proved once for any width of at least one byte. */
module Crcs {
  import opened Words
  import opened Numbers

  type Register = seq<bool>

  function Xor(a: Register, b: Register): (r: Register)
    requires |a| == |b|
    ensures |r| == |a|
  {
    seq(|a|, i requires 0 <= i < |a| => a[i] != b[i])
  }

  function Zeros(n: nat): (r: Register)
    ensures |r| == n
  {
    seq(n, _ => false)
  }

  function Complement(r: Register): (c: Register)
    ensures |c| == |r| && forall i :: 0 <= i < |r| ==> c[i] != r[i]
  {
    seq(|r|, i requires 0 <= i < |r| => !r[i])
  }

  function ShiftRight(r: Register, n: nat): (s: Register)
    requires n <= |r|
    ensures |s| == |r|
  {
    r[n..] + Zeros(n)
  }

  // ---------- bit at a time ----------

  /** One turn of the inner loop: shift, and subtract the polynomial when a one falls out. */
  function Turn(r: Register, poly: Register): (s: Register)
    requires 0 < |r| == |poly|
    ensures |s| == |r|
  {
    if r[0] then Xor(ShiftRight(r, 1), poly) else ShiftRight(r, 1)
  }

  function Turns(r: Register, poly: Register, n: nat): (s: Register)
    requires 0 < |r| == |poly|
    ensures |s| == |r|
    decreases n
  {
    if n == 0 then r else Turns(Turn(r, poly), poly, n - 1)
  }

  /** Feeds one message bit. */
  function FeedBit(r: Register, poly: Register, bit: bool): (s: Register)
    requires 0 < |r| == |poly|
    ensures |s| == |r|
  {
    Turn(r[0 := r[0] != bit], poly)
  }

  function FeedBits(r: Register, poly: Register, bits: seq<bool>): (s: Register)
    requires 0 < |r| == |poly|
    ensures |s| == |r|
    decreases |bits|
  {
    if bits == [] then r else FeedBits(FeedBit(r, poly, bits[0]), poly, bits[1..])
  }

  // ---------- long division ----------

  /** Schoolbook division of a bit string by the polynomial whose leading coefficient is one and
      whose other coefficients are `poly`, highest power first: whenever the leading bit is set, the
      divisor is subtracted under it. What is left, |poly| bits, is the remainder. */
  function Remainder(dividend: seq<bool>, poly: Register): (r: Register)
    requires |dividend| >= |poly|
    ensures |r| == |poly|
    decreases |dividend|
  {
    if |dividend| == |poly| then dividend else Remainder(Subtracted(dividend, poly), poly)
  }

  /** The product of a polynomial `q` and the divisor, by the schoolbook method. */
  function Product(q: seq<bool>, poly: Register): (r: seq<bool>)
    ensures |r| == |q| + |poly|
  {
    if q == [] then Zeros(|poly|) else
      Xor(Row(q[0], poly, |q| - 1), [false] + Product(q[1..], poly))
  }

  /** One row of the schoolbook product: the divisor or nothing, shifted by `places`. */
  function Row(digit: bool, poly: Register, places: nat): (r: seq<bool>)
    ensures |r| == 1 + |poly| + places
    ensures r[0] == digit
    ensures forall i :: 1 <= i < |r| ==> r[i] == (digit && i - 1 < |poly| && poly[i - 1])
  {
    (if digit then [true] + poly else Zeros(|poly| + 1)) + Zeros(places)
  }

  lemma RowPlus(digit: bool, poly: Register, places: nat, rest: seq<bool>, i: nat)
    requires |rest| == |poly| + places && i <= |rest|
    ensures Xor(Row(digit, poly, places), [false] + rest)[i] ==
      if i == 0 then digit else (digit && i - 1 < |poly| && poly[i - 1]) != rest[i - 1]
  {
    XorAt(Row(digit, poly, places), [false] + rest, i);
  }

  lemma XorAt(a: Register, b: Register, i: nat)
    requires |a| == |b| && i < |a|
    ensures Xor(a, b)[i] == (a[i] != b[i])
  {
  }

  function Quotient(dividend: seq<bool>, poly: Register): (q: seq<bool>)
    requires |dividend| >= |poly|
    ensures |q| == |dividend| - |poly|
    decreases |dividend|
  {
    if |dividend| == |poly| then [] else [dividend[0]] + Quotient(Subtracted(dividend, poly), poly)
  }

  /** The dividend without its leading bit, after the divisor was subtracted under it. */
  function Subtracted(dividend: seq<bool>, poly: Register): (d: seq<bool>)
    requires |dividend| > |poly|
    ensures |d| == |dividend| - 1
  {
    var rest, n := dividend[1..], |poly|;
    if dividend[0] then Xor(rest[..n], poly) + rest[n..] else rest
  }

  /** `q` times the divisor, plus `r`. */
  function Assembled(q: seq<bool>, poly: Register, r: Register): (d: seq<bool>)
    requires |r| == |poly|
    ensures |d| == |q| + |poly|
  {
    Xor(Product(q, poly), Zeros(|q|) + r)
  }

  lemma ProductAt(q: seq<bool>, poly: Register, i: nat)
    requires q != [] && i < |q| + |poly|
    ensures Product(q, poly)[i] ==
      if i == 0 then q[0] else Under(q[0], poly, i - 1) != Product(q[1..], poly)[i - 1]
  {
    RowPlus(q[0], poly, |q| - 1, Product(q[1..], poly), i);
  }

  lemma AssembledHead(q: seq<bool>, poly: Register, r: Register)
    requires |r| == |poly| && q != []
    ensures Assembled(q, poly, r)[0] == q[0]
  {
    ProductAt(q, poly, 0);
    AssembledFrom(q, poly, r, 0);
  }

  /** Bit `i` of `r` moved `n` places down. */
  predicate Behind(r: Register, n: nat, i: nat) {
    n <= i < n + |r| && r[i - n]
  }

  /** What the divisor contributes under a quotient digit, `i` places down. */
  predicate Under(digit: bool, poly: Register, i: nat) {
    digit && i < |poly| && poly[i]
  }

  lemma AssembledTail(q: seq<bool>, poly: Register, r: Register, i: nat)
    requires |r| == |poly| && q != [] && i < |q| - 1 + |poly|
    ensures Assembled(q, poly, r)[i + 1] == (Under(q[0], poly, i) != Assembled(q[1..], poly, r)[i])
  {
    ProductAt(q, poly, i + 1);
    AssembledFrom(q, poly, r, i + 1);
    AssembledFrom(q[1..], poly, r, i);
    assert Behind(r, |q|, i + 1) == Behind(r, |q[1..]|, i);
  }

  lemma AssembledFrom(q: seq<bool>, poly: Register, r: Register, i: nat)
    requires |r| == |poly| && i < |q| + |poly|
    ensures Assembled(q, poly, r)[i] == (Product(q, poly)[i] != Behind(r, |q|, i))
  {
    var low := Zeros(|q|) + r;
    XorAt(Product(q, poly), low, i);
  }

  lemma SubtractedAt(dividend: seq<bool>, poly: Register, i: nat)
    requires |dividend| > |poly| && i < |dividend| - 1
    ensures Subtracted(dividend, poly)[i] == (Under(dividend[0], poly, i) != dividend[i + 1])
  {
  }

  lemma UndoSubtraction(dividend: seq<bool>, poly: Register, q: seq<bool>, r: Register, i: nat)
    requires |r| == |poly| && q != [] && i < |dividend| == |q| + |poly| && dividend[0] == q[0]
    requires Subtracted(dividend, poly) == Assembled(q[1..], poly, r)
    ensures dividend[i] == Assembled(q, poly, r)[i]
  {
    if i == 0 {
      AssembledHead(q, poly, r);
    } else {
      AssembledTail(q, poly, r, i - 1);
      SubtractedAt(dividend, poly, i - 1);
      assert Subtracted(dividend, poly)[i - 1] == Assembled(q[1..], poly, r)[i - 1];
    }
  }

  /** quotient * divisor + remainder = dividend. */
  lemma {:induction false} DivisionIdentity(dividend: seq<bool>, poly: Register)
    requires |dividend| >= |poly|
    ensures dividend == Assembled(Quotient(dividend, poly), poly, Remainder(dividend, poly))
    decreases |dividend|
  {
    var q, r := Quotient(dividend, poly), Remainder(dividend, poly);
    if |dividend| == |poly| {
      assert q == [] && r == dividend;
    } else {
      var next := Subtracted(dividend, poly);
      DivisionIdentity(next, poly);
      assert q[1..] == Quotient(next, poly);
      forall i | 0 <= i < |dividend| ensures dividend[i] == Assembled(q, poly, r)[i] {
        UndoSubtraction(dividend, poly, q, r, i);
      }
    }
  }

  /** No other remainder of the same width satisfies the identity. */
  lemma {:induction false} RemainderIsUnique(dividend: seq<bool>, poly: Register, q: seq<bool>, r: Register)
    requires |r| == |poly| && dividend == Assembled(q, poly, r)
    ensures r == Remainder(dividend, poly)
    decreases |q|
  {
    if q == [] {
      assert dividend == r;
    } else {
      var next := Subtracted(dividend, poly);
      AssembledHead(q, poly, r);
      forall i | 0 <= i < |next| ensures next[i] == Assembled(q[1..], poly, r)[i] {
        SubtractedAt(dividend, poly, i);
        AssembledTail(q, poly, r, i);
      }
      RemainderIsUnique(next, poly, q[1..], r);
    }
  }

  /** Shifting bits through the register is long division of the message, followed by as many zeros
      as the register is wide, with the initial register added to its first bits. */
  lemma {:induction false} FeedingIsDivision(r: Register, poly: Register, bits: seq<bool>)
    requires 0 < |r| == |poly|
    ensures FeedBits(r, poly, bits) ==
      Remainder(Xor(r + Zeros(|bits|), bits + Zeros(|r|)), poly)
    decreases |bits|
  {
    var n := |r|;
    var dividend := Xor(r + Zeros(|bits|), bits + Zeros(n));
    if bits == [] {
      assert dividend == r;
    } else {
      var fed := FeedBit(r, poly, bits[0]);
      var next := Xor(fed + Zeros(|bits| - 1), bits[1..] + Zeros(n));
      assert Subtracted(dividend, poly) == next;
      FeedingIsDivision(fed, poly, bits[1..]);
    }
  }

  // ---------- linearity ----------

  lemma TurnIsLinear(a: Register, b: Register, poly: Register)
    requires 0 < |a| == |b| == |poly|
    ensures Turn(Xor(a, b), poly) == Xor(Turn(a, poly), Turn(b, poly))
  {
  }

  lemma {:induction false} TurnsAreLinear(a: Register, b: Register, poly: Register, n: nat)
    requires 0 < |a| == |b| == |poly|
    ensures Turns(Xor(a, b), poly, n) == Xor(Turns(a, poly, n), Turns(b, poly, n))
    decreases n
  {
    if n > 0 {
      TurnIsLinear(a, b, poly);
      TurnsAreLinear(Turn(a, poly), Turn(b, poly), poly, n - 1);
    }
  }

  /** With the low `n` bits clear, `n` turns only shift. */
  lemma {:induction false} ZerosOnlyShift(r: Register, poly: Register, n: nat)
    requires 0 < |r| == |poly| && n <= |r| && forall i :: 0 <= i < n ==> !r[i]
    ensures Turns(r, poly, n) == ShiftRight(r, n)
    decreases n
  {
    if n == 0 {
      assert ShiftRight(r, 0) == r;
    } else {
      var s := Turn(r, poly);
      assert s == ShiftRight(r, 1);
      ZerosOnlyShift(s, poly, n - 1);
      assert ShiftRight(ShiftRight(r, 1), n - 1) == ShiftRight(r, n);
    }
  }

  /** A byte in the low end of the register. */
  function Low(b: Byte, n: nat): (r: Register)
    requires n >= 8
    ensures |r| == n
  {
    b + Zeros(n - 8)
  }

  /** Adding a whole byte and turning eight times is the same as feeding its bits one by one. */
  lemma {:induction false} ByteIsEightBits(r: Register, poly: Register, bits: seq<bool>)
    requires |bits| <= |r| == |poly| && 0 < |r|
    ensures Turns(Xor(r, bits + Zeros(|r| - |bits|)), poly, |bits|) == FeedBits(r, poly, bits)
    decreases |bits|
  {
    var n := |r|;
    if bits == [] {
      assert Xor(r, [] + Zeros(n)) == r;
    } else {
      var fed := FeedBit(r, poly, bits[0]);
      var x := Xor(r, bits + Zeros(n - |bits|));
      var y := Xor(fed, bits[1..] + Zeros(n - |bits| + 1));
      assert Turn(x, poly) == y;
      ByteIsEightBits(fed, poly, bits[1..]);
    }
  }

  lemma {:induction false} FeedAppend(r: Register, poly: Register, a: seq<bool>, b: seq<bool>)
    requires 0 < |r| == |poly|
    ensures FeedBits(r, poly, a + b) == FeedBits(FeedBits(r, poly, a), poly, b)
    decreases |a|
  {
    if a == [] {
      assert a + b == b;
    } else {
      assert (a + b)[1..] == a[1..] + b;
      FeedAppend(FeedBit(r, poly, a[0]), poly, a[1..], b);
    }
  }

  // ---------- the table ----------

  /** One turn for each bit of a byte in the low end of the register. */
  function TurnByte(b: Byte, poly: Register): (r: Register)
    requires |poly| >= 8
    ensures |r| == |poly|
  {
    Turns(Low(b, |poly|), poly, |b|)
  }

  /** Entry `i` of the table: the index, turned eight times. */
  ghost predicate IsTable(table: seq<Register>, poly: Register) {
    && |table| == 256 && |poly| >= 8
    && forall i :: 0 <= i < 256 ==> table[i] == TurnByte(ToBits(i, 8), poly)
  }

  method BuildTable(poly: Register) returns (table: seq<Register>)
    requires |poly| >= 8
    ensures IsTable(table, poly)
  {
    table := [];
    for i := 0 to 256
      invariant |table| == i
      invariant forall k :: 0 <= k < i ==> table[k] == TurnByte(ToBits(k, 8), poly)
    {
      table := NextEntry(table, i, poly);
    }
  }

  method NextEntry(table: seq<Register>, i: nat, poly: Register) returns (r: seq<Register>)
    requires |poly| >= 8
    ensures r == table + [TurnByte(ToBits(i, 8), poly)]
  {
    var entry := TableEntry(ToBits(i, 8), poly);
    r := table + [entry];
  }

  method TableEntry(index: Byte, poly: Register) returns (crc: Register)
    requires |poly| >= 8
    ensures crc == TurnByte(index, poly)
  {
    crc := Low(index, |poly|);
    var j, n := 0, |index|;
    while j < n
      invariant j <= n && |crc| == |poly| && Turns(crc, poly, n - j) == TurnByte(index, poly)
    {
      crc := Turned(crc, poly);
      j := j + 1;
    }
  }

  /** The body of the inner loop. */
  method Turned(r: Register, poly: Register) returns (s: Register)
    requires 0 < |r| == |poly|
    ensures s == Turn(r, poly)
  {
    if r[0] {
      s := Xor(ShiftRight(r, 1), poly);
    } else {
      s := ShiftRight(r, 1);
    }
  }

  /** One byte through the table. */
  lemma TableStep(table: seq<Register>, poly: Register, r: Register, b: Byte)
    requires IsTable(table, poly) && |r| == |poly|
    ensures FromBits(Xor(r[..8], b)) < 256
    ensures Xor(table[FromBits(Xor(r[..8], b))], ShiftRight(r, 8)) == FeedBits(r, poly, b)
  {
    var n, low := |r|, Xor(r[..8], b);
    NumberRoundTrip(low);
    assert Pow2(8) == 256;
    SplitRegister(r, b, poly);
    ByteIsEightBits(r, poly, b);
  }

  /** The byte that falls out and the rest of the register turn independently. */
  lemma SplitRegister(r: Register, b: Byte, poly: Register)
    requires 8 <= |r| == |poly|
    ensures Turns(Xor(r, b + Zeros(|r| - 8)), poly, |b|) ==
      Xor(TurnByte(Xor(r[..8], b), poly), ShiftRight(r, 8))
  {
    var low, high := Low(Xor(r[..8], b), |r|), Zeros(8) + r[8..];
    SplitsInto(r, b);
    TurnsAreLinear(low, high, poly, |b|);
    ZerosOnlyShift(high, poly, |b|);
  }

  lemma SplitsInto(r: Register, b: Byte)
    requires 8 <= |r|
    ensures Xor(Low(Xor(r[..8], b), |r|), Zeros(8) + r[8..]) == Xor(r, b + Zeros(|r| - 8))
    ensures ShiftRight(Zeros(8) + r[8..], 8) == ShiftRight(r, 8)
  {
  }

  /** The checksum of `data` continued from `seed`, bit at a time. */
  function Crc(poly: Register, data: seq<Byte>, seed: Register): (r: Register)
    requires 0 < |poly| == |seed|
    ensures |r| == |seed|
  {
    Complement(FeedBits(Complement(seed), poly, Flat(data)))
  }

  /** The byte loop with the table computes the bit-at-a-time checksum. */
  method TableCrc(poly: Register, data: seq<Byte>, seed: Register) returns (out: Register)
    requires |poly| >= 8 && |seed| == |poly|
    ensures out == Crc(poly, data, seed)
  {
    var table := BuildTable(poly);
    var crc := Complement(seed);
    for i := 0 to |data|
      invariant |crc| == |poly|
      invariant FeedBits(crc, poly, Flat(data[i..])) == FeedBits(Complement(seed), poly, Flat(data))
    {
      var b := data[i];
      assert data[i..][1..] == data[i + 1..];
      TableStep(table, poly, crc, b);
      FeedAppend(crc, poly, b, Flat(data[i + 1..]));
      crc := Xor(table[FromBits(Xor(crc[..8], b))], ShiftRight(crc, 8));
    }
    assert data[|data|..] == [];
    out := Complement(crc);
  }

  /** The checksum is the complemented remainder of the message with its first bits complemented. */
  lemma CrcIsDivision(poly: Register, data: seq<Byte>, seed: Register)
    requires 0 < |poly| == |seed|
    ensures Crc(poly, data, seed) ==
      Complement(Remainder(Xor(Complement(seed) + Zeros(8 * |data|), Flat(data) + Zeros(|seed|)), poly))
  {
    FeedingIsDivision(Complement(seed), poly, Flat(data));
  }

  /** Continuing from the checksum of a first part gives the checksum of the whole. */
  lemma CrcSplits(poly: Register, a: seq<Byte>, b: seq<Byte>, seed: Register)
    requires 0 < |poly| == |seed|
    ensures Crc(poly, b, Crc(poly, a, seed)) == Crc(poly, a + b, seed)
    ensures Crc(poly, [], seed) == seed
  {
    var mid := FeedBits(Complement(seed), poly, Flat(a));
    assert Complement(Complement(mid)) == mid;
    assert Complement(Complement(seed)) == seed;
    FlatAppend(a, b);
    FeedAppend(Complement(seed), poly, Flat(a), Flat(b));
  }

  // ---------- the three instances ----------

  /** The low `n` bits of a number, least significant first. */
  function BitsOf(v: nat, n: nat): (r: Register)
    ensures |r| == n
  {
    seq(n, i requires 0 <= i < n => BitOf(v, i))
  }

  function Poly32(): (p: Register) ensures |p| == 32 { BitsOf(0xEDB8_8320, 32) }
  function Poly32C(): (p: Register) ensures |p| == 32 { BitsOf(0x82F6_3B78, 32) }
  function Poly64Nvme(): (p: Register) ensures |p| == 64 { BitsOf(0x9A6C_9329_AC4B_C9B5, 64) }

  /** The generator x^32 + x^26 + x^23 + ... + x + 1 of IEEE 802.3, without its leading term. */
  const IEEE: set<nat> := {26, 23, 22, 16, 12, 11, 10, 8, 7, 5, 4, 2, 1, 0}

  /** Castagnoli's generator, without x^32. */
  const CASTAGNOLI: set<nat> := {28, 27, 26, 25, 23, 22, 20, 19, 18, 14, 13, 11, 10, 9, 8, 6, 0}

  /** The generator of CRC-64/NVME, without x^64. */
  const NVME: set<nat> := {
    63, 61, 59, 58, 56, 55, 52, 49, 48, 47, 46, 44, 41, 37, 36, 34, 32, 31, 28, 26, 23, 22, 19, 16, 13, 12, 10, 9, 6, 4,
    3, 0
  }

  /** The coefficients below the leading one, highest power first, are one exactly for the exponents in `terms`. */
  predicate HasTerms(poly: Register, terms: set<nat>) {
    forall i :: 0 <= i < |poly| ==> (poly[i] <==> |poly| - 1 - i in terms)
  }

  /** Bit `i` of a hexadecimal digit. */
  predicate DigitBit(d: nat, i: nat) {
    (if i == 0 then d else if i == 1 then d / 2 else if i == 2 then d / 4 else d / 8) % 2 == 1
  }

  lemma HexBit(h: nat, d: nat, i: nat)
    requires d < 16
    ensures BitOf(16 * h + d, i) == if i < 4 then DigitBit(d, i) else BitOf(h, i - 4)
  {
    var v := 16 * h + d;
    assert v / 2 == 8 * h + d / 2 && v / 2 / 2 == 4 * h + d / 4 && v / 2 / 2 / 2 == 2 * h + d / 8;
    if i >= 4 {
      assert BitOf(v, i) == BitOf(v / 2, i - 1);
      assert BitOf(v / 2, i - 1) == BitOf(v / 2 / 2, i - 2);
      assert BitOf(v / 2 / 2, i - 2) == BitOf(v / 2 / 2 / 2, i - 3);
    }
  }

  type Digits = d: seq<nat> | forall i :: 0 <= i < |d| ==> d[i] < 16

  /** A number by its hexadecimal digits, the high one first. */
  function FromHex(d: Digits): nat {
    if d == [] then 0 else 16 * FromHex(d[..|d| - 1]) + d[|d| - 1]
  }

  lemma {:induction false} HexBits(d: Digits, i: nat)
    requires i < 4 * |d|
    ensures BitOf(FromHex(d), i) == DigitBit(d[|d| - 1 - i / 4], i % 4)
    decreases |d|
  {
    HexBit(FromHex(d[..|d| - 1]), d[|d| - 1], i);
    if i >= 4 {
      HexBits(d[..|d| - 1], i - 4);
    }
  }

  lemma HexPrefix(d: Digits, k: nat)
    requires k < |d|
    ensures FromHex(d[..k + 1]) == 16 * FromHex(d[..k]) + d[k]
  {
    assert d[..k + 1][..k] == d[..k];
  }

  lemma FourDigits(d: Digits, k: nat)
    requires k + 4 <= |d|
    ensures FromHex(d[..k + 4]) == 0x1_0000 * FromHex(d[..k]) + (0x1000 * d[k] + 0x100 * d[k + 1] + 0x10 * d[k + 2] + d[k + 3])
  {
    HexPrefix(d, k);
    HexPrefix(d, k + 1);
    HexPrefix(d, k + 2);
    HexPrefix(d, k + 3);
  }

  lemma TermsByDigits(v: nat, d: Digits, terms: set<nat>)
    requires FromHex(d) == v
    requires forall i :: 0 <= i < 4 * |d| ==> (DigitBit(d[|d| - 1 - i / 4], i % 4) <==> 4 * |d| - 1 - i in terms)
    ensures HasTerms(BitsOf(v, 4 * |d|), terms)
  {
    forall i | 0 <= i < 4 * |d| ensures BitsOf(v, 4 * |d|)[i] <==> 4 * |d| - 1 - i in terms {
      HexBits(d, i);
    }
  }

  lemma Digits32(d: Digits)
    requires d == [0xE, 0xD, 0xB, 0x8, 0x8, 0x3, 0x2, 0x0]
    ensures FromHex(d) == 0xEDB8_8320
  {
    assert d[..0] == [] && d[..8] == d;
    FourDigits(d, 0);
    FourDigits(d, 4);
  }

  lemma Terms32()
    ensures HasTerms(Poly32(), IEEE)
  {
    var d: Digits := [0xE, 0xD, 0xB, 0x8, 0x8, 0x3, 0x2, 0x0];
    Digits32(d);
    TermsByDigits(0xEDB8_8320, d, IEEE);
  }

  lemma Digits32C(d: Digits)
    requires d == [0x8, 0x2, 0xF, 0x6, 0x3, 0xB, 0x7, 0x8]
    ensures FromHex(d) == 0x82F6_3B78
  {
    assert d[..0] == [] && d[..8] == d;
    FourDigits(d, 0);
    FourDigits(d, 4);
  }

  lemma Terms32C()
    ensures HasTerms(Poly32C(), CASTAGNOLI)
  {
    var d: Digits := [0x8, 0x2, 0xF, 0x6, 0x3, 0xB, 0x7, 0x8];
    Digits32C(d);
    TermsByDigits(0x82F6_3B78, d, CASTAGNOLI);
  }

  lemma Digits64Nvme(d: Digits)
    requires d == [0x9, 0xA, 0x6, 0xC, 0x9, 0x3, 0x2, 0x9, 0xA, 0xC, 0x4, 0xB, 0xC, 0x9, 0xB, 0x5]
    ensures FromHex(d) == 0x9A6C_9329_AC4B_C9B5
  {
    assert d[..0] == [] && d[..16] == d;
    FourDigits(d, 0);
    FourDigits(d, 4);
    FourDigits(d, 8);
    FourDigits(d, 12);
  }

  lemma Terms64Nvme()
    ensures HasTerms(Poly64Nvme(), NVME)
  {
    var d: Digits := [0x9, 0xA, 0x6, 0xC, 0x9, 0x3, 0x2, 0x9, 0xA, 0xC, 0x4, 0xB, 0xC, 0x9, 0xB, 0x5];
    Digits64Nvme(d);
    TermsByDigits(0x9A6C_9329_AC4B_C9B5, d, NVME);
  }

  /** A 32-bit checksum as a number, with a number as seed. */
  function Crc32Of(poly: Register, data: seq<Byte>, seed: nat): (r: nat)
    requires |poly| == 32
    ensures r < Pow2(32)
  {
    FromBits(Crc(poly, data, BitsOf(seed, 32)))
  }

  method Crc32(data: seq<Byte>, seed: nat) returns (r: nat)
    requires seed < U32_LIMIT
    ensures r == Crc32Of(Poly32(), data, seed)
  {
    var out := TableCrc(Poly32(), data, BitsOf(seed, 32));
    r := FromBits(out);
  }

  method Crc32C(data: seq<Byte>, seed: nat) returns (r: nat)
    requires seed < U32_LIMIT
    ensures r == Crc32Of(Poly32C(), data, seed)
  {
    var out := TableCrc(Poly32C(), data, BitsOf(seed, 32));
    r := FromBits(out);
  }

  method Crc64Nvme(data: seq<Byte>, seed: nat) returns (r: nat)
    requires seed < U64_LIMIT
    ensures r == FromBits(Crc(Poly64Nvme(), data, BitsOf(seed, 64)))
  {
    var out := TableCrc(Poly64Nvme(), data, BitsOf(seed, 64));
    r := FromBits(out);
  }
}
