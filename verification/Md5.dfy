/** MD5 as sections 3.1 to 3.5 of RFC 1321 describe it: the reference for the four-lane hasher.

    A 32-bit word is its value; sums wrap. */
module Md5Reference {

  type Octet = x: nat | x < 256

  type Octets = seq<Octet>

  /** 64 bytes. */
  type Block = b: seq<Octet> | |b| == 64 witness seq(64, _ => 0)

  const M32: nat := 0x1_0000_0000
  const M64: nat := 0x1_0000_0000_0000_0000

  // ---------- words ----------

  function Add(x: nat, y: nat): nat {
    (x + y) % M32
  }

  function And(x: nat, y: nat): nat {
    if x == 0 || y == 0 then 0 else 2 * And(x / 2, y / 2) + (if x % 2 == 1 && y % 2 == 1 then 1 else 0)
  }

  function Or(x: nat, y: nat): nat {
    if x == 0 && y == 0 then 0 else 2 * Or(x / 2, y / 2) + (if x % 2 == 1 || y % 2 == 1 then 1 else 0)
  }

  function Xor(x: nat, y: nat): nat {
    if x == 0 && y == 0 then 0 else 2 * Xor(x / 2, y / 2) + (if x % 2 != y % 2 then 1 else 0)
  }

  function Not(x: nat): nat {
    M32 - 1 - x % M32
  }

  /** `x <<< s`: `s` rotations by one place. */
  function RotateLeft(x: nat, s: nat): nat
    decreases s
  {
    if s == 0 then x else RotateLeft((2 * x) % M32 + (2 * x) / M32, s - 1)
  }

  lemma {:induction false} AndCommutes(x: nat, y: nat)
    ensures And(x, y) == And(y, x)
  {
    if x != 0 && y != 0 {
      AndCommutes(x / 2, y / 2);
    }
  }

  lemma AddReorders(a: nat, f: nat, k: nat, w: nat)
    ensures Add(Add(Add(a, f), k), w) == Add(Add(Add(a, f), w), k)
  {
  }

  // ---------- one block ----------

  /** The four registers of the message digest buffer. */
  datatype Regs = Regs(a: nat, b: nat, c: nat, d: nat)

  /** Section 3.3. */
  const INITIAL := Regs(0x6745_2301, 0xefcd_ab89, 0x98ba_dcfe, 0x1032_5476)

  /** What section 3.4 lists for each of the 64 operations: the element of the table T, the rotation
      and the message word. */
  datatype Tables = Tables(sines: seq<nat>, rotations: seq<nat>, words: seq<nat>)

  predicate TablesOk(t: Tables) {
    && |t.sines| == |t.rotations| == |t.words| == 64
    && forall i :: 0 <= i < |t.words| ==> t.words[i] < 16
  }

  function F(x: nat, y: nat, z: nat): nat { Or(And(x, y), And(Not(x), z)) }
  function G(x: nat, y: nat, z: nat): nat { Or(And(x, z), And(y, Not(z))) }
  function H(x: nat, y: nat, z: nat): nat { Xor(Xor(x, y), z) }
  function I(x: nat, y: nat, z: nat): nat { Xor(y, Or(x, Not(z))) }

  function Auxiliary(i: nat, x: nat, y: nat, z: nat): nat {
    if i < 16 then F(x, y, z) else if i < 32 then G(x, y, z) else if i < 48 then H(x, y, z) else I(x, y, z)
  }

  /** `[abcd k s i]`: what register `a` becomes, namely b + ((a + F(b,c,d) + X[k] + T[i]) <<< s). */
  function Mixed(t: Tables, x: seq<nat>, i: nat, a: nat, b: nat, c: nat, d: nat): nat
    requires TablesOk(t) && |x| == 16 && i < |t.words|
  {
    Add(b, RotateLeft(Add(Add(Add(a, Auxiliary(i, b, c, d)), x[t.words[i]]), t.sines[i]), t.rotations[i]))
  }

  /** Operation `i` changes one register; which one goes round ABCD, DABC, CDAB, BCDA. */
  function Operation(t: Tables, x: seq<nat>, i: nat, r: Regs): Regs
    requires TablesOk(t) && |x| == 16 && i < |t.words|
  {
    match i % 4
    case 0 => r.(a := Mixed(t, x, i, r.a, r.b, r.c, r.d))
    case 1 => r.(d := Mixed(t, x, i, r.d, r.a, r.b, r.c))
    case 2 => r.(c := Mixed(t, x, i, r.c, r.d, r.a, r.b))
    case _ => r.(b := Mixed(t, x, i, r.b, r.c, r.d, r.a))
  }

  /** The first `n` operations. */
  function Operations(t: Tables, x: seq<nat>, n: nat, r: Regs): Regs
    requires TablesOk(t) && |x| == 16 && n <= |t.words|
  {
    if n == 0 then r else Operation(t, x, n - 1, Operations(t, x, n - 1, r))
  }

  function Plus(r: Regs, s: Regs): Regs {
    Regs(Add(r.a, s.a), Add(r.b, s.b), Add(r.c, s.c), Add(r.d, s.d))
  }

  /** Four bytes, low-order byte first. */
  function LeWord(b: Octets): nat
    requires |b| == 4
  {
    b[0] as nat + 0x100 * (b[1] as nat) + 0x1_0000 * (b[2] as nat) + 0x100_0000 * (b[3] as nat)
  }

  function WordsOf(b: Block): (x: seq<nat>)
    ensures |x| == 16
  {
    seq(16, j requires 0 <= j < 16 => LeWord(b[4 * j..4 * j + 4]))
  }

  /** Section 3.4 for one block. */
  function Transform(t: Tables, r: Regs, b: Block): Regs
    requires TablesOk(t)
  {
    Plus(Operations(t, WordsOf(b), |t.words|, r), r)
  }

  function Digested(t: Tables, r: Regs, blocks: seq<Block>): Regs
    requires TablesOk(t)
  {
    if blocks == [] then r else Transform(t, Digested(t, r, blocks[..|blocks| - 1]), blocks[|blocks| - 1])
  }

  // ---------- the message ----------

  /** The whole blocks of a byte string. */
  function Chopped(data: Octets): (r: seq<Block>)
    ensures |r| == |data| / 64
    ensures forall i :: 0 <= i < |r| ==> r[i] == data[64 * i..64 * i + 64]
  {
    seq(|data| / 64, i requires 0 <= i < |data| / 64 => data[64 * i..64 * i + 64])
  }

  /** How many zero bytes follow the 0x80 byte: as few as possible, fewer than 64. */
  function ZeroCount(n: nat): (k: nat)
    ensures k < 64 && (n + 1 + k) % 64 == 56
  {
    if n % 64 <= 55 then 55 - n % 64 else 119 - n % 64
  }

  function ZeroBytes(k: nat): (r: Octets)
    ensures |r| == k && forall i :: 0 <= i < k ==> r[i] == 0
  {
    seq(k, _ => 0)
  }

  /** Byte `i` of a number, counted from the low end. */
  function ByteAt(n: nat, i: nat): Octet
    decreases i
  {
    if i == 0 then n % 256 else ByteAt(n / 256, i - 1)
  }

  /** The low `k` bytes of a number, low-order byte first. */
  function LeBytes(n: nat, k: nat): (r: Octets)
    ensures |r| == k
  {
    seq(k, i requires 0 <= i < k => ByteAt(n, i))
  }

  const LENGTH_BYTES: nat := 8

  /** Sections 3.1 and 3.2, for a message of `n` bytes. */
  function Padding(n: nat): (p: Octets)
    ensures |p| == 1 + ZeroCount(n) + 8
  {
    [0x80] + ZeroBytes(ZeroCount(n)) + LeBytes((8 * n) % M64, LENGTH_BYTES)
  }

  /** The padded message is whole blocks, and padding is at most 72 bytes. */
  lemma PaddingFits(n: nat)
    ensures (n + |Padding(n)|) % 64 == 0 && 9 <= |Padding(n)| <= 72
    ensures n % 64 + |Padding(n)| <= 128
  {
  }

  const WORD_BYTES: nat := 4

  /** Section 3.5. */
  function Output(r: Regs): Octets {
    LeBytes(r.a, WORD_BYTES) + LeBytes(r.b, WORD_BYTES) + LeBytes(r.c, WORD_BYTES) + LeBytes(r.d, WORD_BYTES)
  }

  function Hashed(t: Tables, message: Octets): Octets
    requires TablesOk(t)
  {
    Output(Digested(t, INITIAL, Chopped(message + Padding(|message|))))
  }

  lemma {:induction false} DigestedAppend(t: Tables, r: Regs, x: seq<Block>, y: seq<Block>)
    requires TablesOk(t)
    ensures Digested(t, r, x + y) == Digested(t, Digested(t, r, x), y)
    decreases |y|
  {
    if y == [] {
      assert x + y == x;
    } else {
      assert (x + y)[..|x + y| - 1] == x + y[..|y| - 1];
      DigestedAppend(t, r, x, y[..|y| - 1]);
    }
  }

  lemma OneMoreBlock(t: Tables, r: Regs, blocks: seq<Block>, i: nat)
    requires TablesOk(t) && i < |blocks|
    ensures Digested(t, r, blocks[..i + 1]) == Transform(t, Digested(t, r, blocks[..i]), blocks[i])
  {
    assert blocks[..i + 1][..i] == blocks[..i];
  }

  /** The bytes after the last whole block. */
  function Rest(data: Octets): (r: Octets)
    ensures |r| == |data| % 64
  {
    data[|data| - |data| % 64..]
  }

  /** More data only adds blocks: those of the rest followed by the new bytes. */
  lemma ChoppedExtends(data: Octets, more: Octets)
    ensures Chopped(data + more) == Chopped(data) + Chopped(Rest(data) + more)
    ensures Rest(data + more) == Rest(Rest(data) + more)
  {
    var whole, rest := data + more, Rest(data) + more;
    var n := |data| / 64;
    assert whole[64 * n..] == rest;
    forall i | 0 <= i < |whole| / 64 ensures Chopped(whole)[i] == (Chopped(data) + Chopped(rest))[i] {
      if i < n {
        assert whole[64 * i..64 * i + 64] == data[64 * i..64 * i + 64];
      } else {
        assert whole[64 * i..64 * i + 64] == rest[64 * (i - n)..64 * (i - n) + 64];
      }
    }
  }

  // ---------- the tables of section 3.4 ----------

  /** Eight elements of the table T. */
  function SineRow(row: nat): (t: seq<nat>)
    ensures |t| == 8
  {
    match row
    case 0 => [0xd76aa478, 0xe8c7b756, 0x242070db, 0xc1bdceee, 0xf57c0faf, 0x4787c62a, 0xa8304613, 0xfd469501]
    case 1 => [0x698098d8, 0x8b44f7af, 0xffff5bb1, 0x895cd7be, 0x6b901122, 0xfd987193, 0xa679438e, 0x49b40821]
    case 2 => [0xf61e2562, 0xc040b340, 0x265e5a51, 0xe9b6c7aa, 0xd62f105d, 0x02441453, 0xd8a1e681, 0xe7d3fbc8]
    case 3 => [0x21e1cde6, 0xc33707d6, 0xf4d50d87, 0x455a14ed, 0xa9e3e905, 0xfcefa3f8, 0x676f02d9, 0x8d2a4c8a]
    case 4 => [0xfffa3942, 0x8771f681, 0x6d9d6122, 0xfde5380c, 0xa4beea44, 0x4bdecfa9, 0xf6bb4b60, 0xbebfbc70]
    case 5 => [0x289b7ec6, 0xeaa127fa, 0xd4ef3085, 0x04881d05, 0xd9d4d039, 0xe6db99e5, 0x1fa27cf8, 0xc4ac5665]
    case 6 => [0xf4292244, 0x432aff97, 0xab9423a7, 0xfc93a039, 0x655b59c3, 0x8f0ccc92, 0xffeff47d, 0x85845dd1]
    case _ => [0x6fa87e4f, 0xfe2ce6e0, 0xa3014314, 0x4e0811a1, 0xf7537e82, 0xbd3af235, 0x2ad7d2bb, 0xeb86d391]
  }

  function Sines(): (t: seq<nat>)
    ensures |t| == 64
  {
    seq(64, i requires 0 <= i < 64 => SineRow(i / 8)[i % 8])
  }

  function Rotation(i: nat): (s: nat)
    ensures s < 32
  {
    if i < 16 then [7, 12, 17, 22][i % 4]
    else if i < 32 then [5, 9, 14, 20][i % 4]
    else if i < 48 then [4, 11, 16, 23][i % 4]
    else [6, 10, 15, 21][i % 4]
  }

  /** The message words of the four rounds, in order. */
  function RoundWords(round: nat): (t: seq<nat>)
    ensures |t| == 16 && forall j :: 0 <= j < |t| ==> t[j] < 16
  {
    match round
    case 0 => [0, 1, 2, 3, 4, 5, 6, 7, 8, 9, 10, 11, 12, 13, 14, 15]
    case 1 => [1, 6, 11, 0, 5, 10, 15, 4, 9, 14, 3, 8, 13, 2, 7, 12]
    case 2 => [5, 8, 11, 14, 1, 4, 7, 10, 13, 0, 3, 6, 9, 12, 15, 2]
    case _ => [0, 7, 14, 5, 12, 3, 10, 1, 8, 15, 6, 13, 4, 11, 2, 9]
  }

  function Rfc1321(): (t: Tables)
    ensures TablesOk(t)
  {
    Tables(Sines(), seq(64, i requires 0 <= i < 64 => Rotation(i)),
           seq(64, i requires 0 <= i < 64 => RoundWords(i / 16)[i % 16]))
  }
}
