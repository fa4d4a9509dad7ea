/** The first message of the test suite in appendix A.5 of RFC 1321, the empty one, operation by operation. */
module Md5Vectors {
  import opened Md5Reference
  import opened Md5Words
  import opened Numbers
  import opened HexWords

  // ---------- one operation ----------

  /** Where the registers are before operation `n`: `a` is the one that it changes. */
  function Placed(n: nat, a: nat, b: nat, c: nat, d: nat): Regs {
    match n % 4
    case 0 => Regs(a, b, c, d)
    case 1 => Regs(b, c, d, a)
    case 2 => Regs(c, d, a, b)
    case _ => Regs(d, a, b, c)
  }

  /** What operation `n` takes from the tables and the message. */
  predicate Takes(t: Tables, x: seq<nat>, n: nat, word: nat, sine: nat, s: nat) {
    && TablesOk(t) && |x| == 16 && n < 64
    && x[t.words[n]] == word && t.sines[n] == sine && t.rotations[n] == s
  }

  lemma AddsUp(x: nat, y: nat, z: nat, w: nat)
    ensures Add(Add(Add(x, y), z), w) == (x + y + z + w) % M32
  {
  }

  /** A sum of which `high` are the first `s` bits and `low` the others is rotated, and `v` comes of it. */
  predicate Turns(sum: nat, b: nat, s: nat, high: nat, low: nat, v: nat)
    requires s <= 32
  {
    Joined(sum, high, low, 32 - s) && high < Pow2(s) && v == Add(b, low * Pow2(s) + high)
  }

  lemma Turned(b: nat, sum: nat, s: nat, high: nat, low: nat, v: nat)
    requires s <= 32 && Turns(sum, b, s, high, low, v)
    ensures Add(b, RotateLeft(sum, s)) == v
  {
    RotateSwaps(sum, s, high, low);
  }

  lemma MixedSums(t: Tables, x: seq<nat>, n: nat, a: nat, b: nat, c: nat, d: nat, f: nat, word: nat, sine: nat, s: nat)
    requires Takes(t, x, n, word, sine, s) && f == Auxiliary(n, b, c, d)
    ensures Mixed(t, x, n, a, b, c, d) == Add(b, RotateLeft((a + f + word + sine) % M32, s))
  {
    AddsUp(a, f, word, sine);
  }

  /** The same with the powers of two named. */
  predicate Makes(a: nat, f: nat, word: nat, sine: nat, b: nat, up: nat, down: nat, high: nat, low: nat, v: nat) {
    && (a + f + word + sine) % M32 == high * down + low && low < down && high < up
    && v == Add(b, low * up + high)
  }

  lemma MakesTurns(a: nat, f: nat, word: nat, sine: nat, b: nat, s: nat, high: nat, low: nat, v: nat)
    requires s <= 32 && Makes(a, f, word, sine, b, Pow2(s), Pow2(32 - s), high, low, v)
    ensures Turns((a + f + word + sine) % M32, b, s, high, low, v)
  {
  }

  lemma Placing(t: Tables, x: seq<nat>, n: nat, a: nat, b: nat, c: nat, d: nat, v: nat)
    requires TablesOk(t) && |x| == 16 && n < 64 && Mixed(t, x, n, a, b, c, d) == v
    ensures Operation(t, x, n, Placed(n, a, b, c, d)) == Placed(n + 1, d, v, b, c)
  {
    var r := Placed(n, a, b, c, d);
    if n % 4 == 0 {
      assert r == Regs(a, b, c, d);
    } else if n % 4 == 1 {
      assert r == Regs(b, c, d, a);
    } else if n % 4 == 2 {
      assert r == Regs(c, d, a, b);
    } else {
      assert r == Regs(d, a, b, c);
    }
  }

  lemma OneMore(t: Tables, x: seq<nat>, n: nat)
    requires TablesOk(t) && |x| == 16 && n < 64
    ensures Operations(t, x, n + 1, INITIAL) == Operation(t, x, n, Operations(t, x, n, INITIAL))
  {
  }

  lemma MixedTurns(t: Tables, x: seq<nat>, n: nat, a: nat, b: nat, c: nat, d: nat, f: nat, word: nat, sine: nat, s: nat,
                   high: nat, low: nat, v: nat)
    requires Takes(t, x, n, word, sine, s) && s <= 32 && f == Auxiliary(n, b, c, d)
    requires Makes(a, f, word, sine, b, Pow2(s), Pow2(32 - s), high, low, v)
    ensures Mixed(t, x, n, a, b, c, d) == v
  {
    MixedSums(t, x, n, a, b, c, d, f, word, sine, s);
    MakesTurns(a, f, word, sine, b, s, high, low, v);
    Turned(b, (a + f + word + sine) % M32, s, high, low, v);
  }

  /** Two to the power of a rotation. */
  function Power(s: nat): nat {
    match s
    case 0 => 0x1
    case 1 => 0x2
    case 2 => 0x4
    case 3 => 0x8
    case 4 => 0x10
    case 5 => 0x20
    case 6 => 0x40
    case 7 => 0x80
    case 8 => 0x100
    case 9 => 0x200
    case 10 => 0x400
    case 11 => 0x800
    case 12 => 0x1000
    case 13 => 0x2000
    case 14 => 0x4000
    case 15 => 0x8000
    case 16 => 0x1_0000
    case 17 => 0x2_0000
    case 18 => 0x4_0000
    case 19 => 0x8_0000
    case 20 => 0x10_0000
    case 21 => 0x20_0000
    case 22 => 0x40_0000
    case 23 => 0x80_0000
    case 24 => 0x100_0000
    case 25 => 0x200_0000
    case 26 => 0x400_0000
    case 27 => 0x800_0000
    case 28 => 0x1000_0000
    case _ => Pow2(s)
  }

  lemma {:induction false} PowerIs(s: nat)
    ensures Power(s) == Pow2(s)
  {
    if s > 0 && s <= 28 {
      PowerIs(s - 1);
    }
  }

  // ---------- the 64 operations ----------

  /** The four initial values in the order in which they are changed, then what each operation makes. */
  function Trace(n: nat): nat {
    match n
    case 0 => 0x6745_2301
    case 1 => 0x1032_5476
    case 2 => 0x98ba_dcfe
    case 3 => 0xefcd_ab89
    case 4 => 0xa520_2774
    case 5 => 0xf595_92dd
    case 6 => 0xe7f0_6b23
    case 7 => 0x1b16_3203
    case 8 => 0x3203_3344
    case 9 => 0x2f35_d494
    case 10 => 0xf5b1_58db
    case 11 => 0x9bc1_3ce9
    case 12 => 0x3893_b991
    case 13 => 0xfce4_a312
    case 14 => 0xe1ef_0576
    case 15 => 0x7076_8a29
    case 16 => 0xf56c_7cf1
    case 17 => 0x3749_43a7
    case 18 => 0x5aa5_3f75
    case 19 => 0xd681_9c6a
    case 20 => 0x1c7d_7513
    case 21 => 0x7bd5_7a3a
    case 22 => 0xc095_f13a
    case 23 => 0xbd78_2e17
    case 24 => 0x3d1e_3e6c
    case 25 => 0x68b7_b3e3
    case 26 => 0xeb41_643e
    case 27 => 0xe422_531a
    case 28 => 0x306e_c122
    case 29 => 0xd28c_77c2
    case 30 => 0xa3c6_63da
    case 31 => 0xa057_2807
    case 32 => 0x1370_7036
    case 33 => 0xae78_13db
    case 34 => 0x1c31_c384
    case 35 => 0xa220_5f1f
    case 36 => 0xdf63_eaa1
    case 37 => 0xc368_9f5b
    case 38 => 0x12f3_e755
    case 39 => 0x004b_6669
    case 40 => 0x5f7a_9b2e
    case 41 => 0xabc3_4e16
    case 42 => 0x91ca_4cb7
    case 43 => 0xc5dc_8c15
    case 44 => 0x4497_169d
    case 45 => 0x76fd_93d4
    case 46 => 0xfd95_f243
    case 47 => 0x0fe3_2453
    case 48 => 0x3f55_edfd
    case 49 => 0x22a3_1f54
    case 50 => 0x68d8_4ea2
    case 51 => 0xca7d_2dbd
    case 52 => 0x93aa_2577
    case 53 => 0x1688_dc85
    case 54 => 0xcd85_b8cb
    case 55 => 0x561e_0689
    case 56 => 0x5625_a114
    case 57 => 0x3450_f42b
    case 58 => 0x392a_d0d0
    case 59 => 0x1e77_fa61
    case 60 => 0x474a_9c8c
    case 61 => 0xdfce_00bc
    case 62 => 0x3659_4b14
    case 63 => 0x3013_0182
    case 64 => 0x7246_fad3
    case 65 => 0x6e10_a476
    case 66 => 0xff4e_a3eb
    case _ => 0x14e4_5506
  }

  function Sine(n: nat): nat
    requires n < 64
  {
    SineRow(n / 8)[n % 8]
  }

  /** The first word holds the 0x80 byte, and the others are zero. */
  function EmptyWord(j: nat): nat {
    if j == 0 then 0x80 else 0
  }

  /** What operation `n` reads: each round comes to the first word once. */
  function Word(n: nat): nat {
    if n == 0 || n == 19 || n == 41 || n == 48 then 0x80 else 0
  }

  /** Operation `n` reads the words `b`, `c` and `d`, and its sum is `high * down + low`. */
  predicate Made(n: nat, b: Hex, c: Hex, d: Hex, up: nat, down: nat, f: nat, high: nat, low: nat)
    requires n < 64
  {
    && Value(b) == Trace(n + 3) && Value(c) == Trace(n + 2) && Value(d) == Trace(n + 1)
    && up == Power(Rotation(n)) && down == Power(32 - Rotation(n))
    && Value(AuxiliaryHex(n, b, c, d)) == f
    && Makes(Trace(n), f, Word(n), Sine(n), Trace(n + 3), up, down, high, low, Trace(n + 4))
  }

  lemma Made0(n: nat) returns (b: Hex, c: Hex, d: Hex, up: nat, down: nat, f: nat, high: nat, low: nat)
    requires n == 0
    ensures Made(n, b, c, d, up, down, f, high, low)
  {
    b := Hex(XE, XF, XC, XD, XA, XB, X8, X9);
    c := Hex(X9, X8, XB, XA, XD, XC, XF, XE);
    d := Hex(X1, X0, X3, X2, X5, X4, X7, X6);
    up, down, f, high, low := 0x80, 0x200_0000, 0x98ba_dcfe, 0x6b, 0x16a_a4f7;
  }

  lemma Made1(n: nat) returns (b: Hex, c: Hex, d: Hex, up: nat, down: nat, f: nat, high: nat, low: nat)
    requires n == 1
    ensures Made(n, b, c, d, up, down, f, high, low)
  {
    b := Hex(XA, X5, X2, X0, X2, X7, X7, X4);
    c := Hex(XE, XF, XC, XD, XA, XB, X8, X9);
    d := Hex(X9, X8, XB, XA, XD, XC, XF, XE);
    up, down, f, high, low := 0x1000, 0x10_0000, 0xbd9a_fb8a, 0xb69, 0x5_0756;
  }

  lemma Made2(n: nat) returns (b: Hex, c: Hex, d: Hex, up: nat, down: nat, f: nat, high: nat, low: nat)
    requires n == 2
    ensures Made(n, b, c, d, up, down, f, high, low)
  {
    b := Hex(XF, X5, X9, X5, X9, X2, XD, XD);
    c := Hex(XA, X5, X2, X0, X2, X7, X7, X4);
    d := Hex(XE, XF, XC, XD, XA, XB, X8, X9);
    up, down, f, high, low := 0x2_0000, 0x8000, 0xaf48_2b54, 0xd846, 0x792d;
  }

  lemma Made3(n: nat) returns (b: Hex, c: Hex, d: Hex, up: nat, down: nat, f: nat, high: nat, low: nat)
    requires n == 3
    ensures Made(n, b, c, d, up, down, f, high, low)
  {
    b := Hex(XE, X7, XF, X0, X6, XB, X2, X3);
    c := Hex(XF, X5, X9, X5, X9, X2, XD, XD);
    d := Hex(XA, X5, X2, X0, X2, X7, X7, X4);
    up, down, f, high, low := 0x40_0000, 0x400, 0xe590_0655, 0x25_c6e0, 0xcc;
  }

  lemma Made4(n: nat) returns (b: Hex, c: Hex, d: Hex, up: nat, down: nat, f: nat, high: nat, low: nat)
    requires n == 4
    ensures Made(n, b, c, d, up, down, f, high, low)
  {
    b := Hex(X1, XB, X1, X6, X3, X2, X0, X3);
    c := Hex(XE, X7, XF, X0, X6, XB, X2, X3);
    d := Hex(XF, X5, X9, X5, X9, X2, XD, XD);
    up, down, f, high, low := 0x80, 0x200_0000, 0xe791_a2df, 0x41, 0x2d_da02;
  }

  lemma Made5(n: nat) returns (b: Hex, c: Hex, d: Hex, up: nat, down: nat, f: nat, high: nat, low: nat)
    requires n == 5
    ensures Made(n, b, c, d, up, down, f, high, low)
  {
    b := Hex(X3, X2, X0, X3, X3, X3, X4, X4);
    c := Hex(X1, XB, X1, X6, X3, X2, X0, X3);
    d := Hex(XE, X7, XF, X0, X6, XB, X2, X3);
    up, down, f, high, low := 0x1000, 0x10_0000, 0xd7f2_7a23, 0x150, 0xf_d32a;
  }

  lemma Made6(n: nat) returns (b: Hex, c: Hex, d: Hex, up: nat, down: nat, f: nat, high: nat, low: nat)
    requires n == 6
    ensures Made(n, b, c, d, up, down, f, high, low)
  {
    b := Hex(X2, XF, X3, X5, XD, X4, X9, X4);
    c := Hex(X3, X2, X0, X3, X3, X3, X4, X4);
    d := Hex(X1, XB, X1, X6, X3, X2, X0, X3);
    up, down, f, high, low := 0x2_0000, 0x8000, 0x3203_3207, 0x1_8447, 0x633d;
  }

  lemma Made7(n: nat) returns (b: Hex, c: Hex, d: Hex, up: nat, down: nat, f: nat, high: nat, low: nat)
    requires n == 7
    ensures Made(n, b, c, d, up, down, f, high, low)
  {
    b := Hex(XF, X5, XB, X1, X5, X8, XD, XB);
    c := Hex(X2, XF, X3, X5, XD, X4, X9, X4);
    d := Hex(X3, X2, X0, X3, X3, X3, X4, X4);
    up, down, f, high, low := 0x40_0000, 0x400, 0x2733_7394, 0xf_e40e, 0x298;
  }

  lemma Made8(n: nat) returns (b: Hex, c: Hex, d: Hex, up: nat, down: nat, f: nat, high: nat, low: nat)
    requires n == 8
    ensures Made(n, b, c, d, up, down, f, high, low)
  {
    b := Hex(X9, XB, XC, X1, X3, XC, XE, X9);
    c := Hex(XF, X5, XB, X1, X5, X8, XD, XB);
    d := Hex(X2, XF, X3, X5, XD, X4, X9, X4);
    up, down, f, high, low := 0x80, 0x200_0000, 0xb5b5_d8dd, 0x28, 0x139_a4f9;
  }

  lemma Made9(n: nat) returns (b: Hex, c: Hex, d: Hex, up: nat, down: nat, f: nat, high: nat, low: nat)
    requires n == 9
    ensures Made(n, b, c, d, up, down, f, high, low)
  {
    b := Hex(X3, X8, X9, X3, XB, X9, X9, X1);
    c := Hex(X9, XB, XC, X1, X3, XC, XE, X9);
    d := Hex(XF, X5, XB, X1, X5, X8, XD, XB);
    up, down, f, high, low := 0x1000, 0x10_0000, 0xdda1_78cb, 0x981, 0xc_450e;
  }

  lemma Made10(n: nat) returns (b: Hex, c: Hex, d: Hex, up: nat, down: nat, f: nat, high: nat, low: nat)
    requires n == 10
    ensures Made(n, b, c, d, up, down, f, high, low)
  {
    b := Hex(XF, XC, XE, X4, XA, X3, X1, X2);
    c := Hex(X3, X8, X9, X3, XB, X9, X9, X1);
    d := Hex(X9, XB, XC, X1, X3, XC, XE, X9);
    up, down, f, high, low := 0x2_0000, 0x8000, 0x3b81_bdf9, 0x6264, 0x7285;
  }

  lemma Made11(n: nat) returns (b: Hex, c: Hex, d: Hex, up: nat, down: nat, f: nat, high: nat, low: nat)
    requires n == 11
    ensures Made(n, b, c, d, up, down, f, high, low)
  {
    b := Hex(XE, X1, XE, XF, X0, X5, X7, X6);
    c := Hex(XF, XC, XE, X4, XA, X3, X1, X2);
    d := Hex(X3, X8, X9, X3, XB, X9, X9, X1);
    up, down, f, high, low := 0x40_0000, 0x400, 0xf8f4_b993, 0x7_84b3, 0x23a;
  }

  lemma Made12(n: nat) returns (b: Hex, c: Hex, d: Hex, up: nat, down: nat, f: nat, high: nat, low: nat)
    requires n == 12
    ensures Made(n, b, c, d, up, down, f, high, low)
  {
    b := Hex(X7, X0, X7, X6, X8, XA, X2, X9);
    c := Hex(XE, X1, XE, XF, X0, X5, X7, X6);
    d := Hex(XF, XC, XE, X4, XA, X3, X1, X2);
    up, down, f, high, low := 0x80, 0x200_0000, 0xece6_2132, 0x48, 0x109_ebe5;
  }

  lemma Made13(n: nat) returns (b: Hex, c: Hex, d: Hex, up: nat, down: nat, f: nat, high: nat, low: nat)
    requires n == 13
    ensures Made(n, b, c, d, up, down, f, high, low)
  {
    b := Hex(XF, X5, X6, XC, X7, XC, XF, X1);
    c := Hex(X7, X0, X7, X6, X8, XA, X2, X9);
    d := Hex(XE, X1, XE, XF, X0, X5, X7, X6);
    up, down, f, high, low := 0x1000, 0x10_0000, 0x70e7_0927, 0x6b6, 0x4_1dcc;
  }

  lemma Made14(n: nat) returns (b: Hex, c: Hex, d: Hex, up: nat, down: nat, f: nat, high: nat, low: nat)
    requires n == 14
    ensures Made(n, b, c, d, up, down, f, high, low)
  {
    b := Hex(X3, X7, X4, X9, X4, X3, XA, X7);
    c := Hex(XF, X5, X6, XC, X7, XC, XF, X1);
    d := Hex(X7, X0, X7, X6, X8, XA, X2, X9);
    up, down, f, high, low := 0x2_0000, 0x8000, 0x757e_c8a9, 0x1_fbce, 0x11ad;
  }

  lemma Made15(n: nat) returns (b: Hex, c: Hex, d: Hex, up: nat, down: nat, f: nat, high: nat, low: nat)
    requires n == 15
    ensures Made(n, b, c, d, up, down, f, high, low)
  {
    b := Hex(X5, XA, XA, X5, X3, XF, X7, X5);
    c := Hex(X3, X7, X4, X9, X4, X3, XA, X7);
    d := Hex(XF, X5, X6, XC, X7, XC, XF, X1);
    up, down, f, high, low := 0x40_0000, 0x400, 0xb749_43a5, 0x1c_5cf5, 0x1ef;
  }

  lemma Made16(n: nat) returns (b: Hex, c: Hex, d: Hex, up: nat, down: nat, f: nat, high: nat, low: nat)
    requires n == 16
    ensures Made(n, b, c, d, up, down, f, high, low)
  {
    b := Hex(XD, X6, X8, X1, X9, XC, X6, XA);
    c := Hex(X5, XA, XA, X5, X3, XF, X7, X5);
    d := Hex(X3, X7, X4, X9, X4, X3, XA, X7);
    up, down, f, high, low := 0x20, 0x800_0000, 0x5ea5_3c72, 9, 0x22f_dec5;
  }

  lemma Made17(n: nat) returns (b: Hex, c: Hex, d: Hex, up: nat, down: nat, f: nat, high: nat, low: nat)
    requires n == 17
    ensures Made(n, b, c, d, up, down, f, high, low)
  {
    b := Hex(X1, XC, X7, XD, X7, X5, X1, X3);
    c := Hex(XD, X6, X8, X1, X9, XC, X6, XA);
    d := Hex(X5, XA, XA, X5, X3, XF, X7, X5);
    up, down, f, high, low := 0x200, 0x80_0000, 0x9c25_b51b, 0x127, 0x2f_ac02;
  }

  lemma Made18(n: nat) returns (b: Hex, c: Hex, d: Hex, up: nat, down: nat, f: nat, high: nat, low: nat)
    requires n == 18
    ensures Made(n, b, c, d, up, down, f, high, low)
  {
    b := Hex(X7, XB, XD, X5, X7, XA, X3, XA);
    c := Hex(X1, XC, X7, XD, X7, X5, X1, X3);
    d := Hex(XD, X6, X8, X1, X9, XC, X6, XA);
    up, down, f, high, low := 0x4000, 0x4_0000, 0x5afd_793b, 0x3700, 0x1_1301;
  }

  lemma Made19(n: nat) returns (b: Hex, c: Hex, d: Hex, up: nat, down: nat, f: nat, high: nat, low: nat)
    requires n == 19
    ensures Made(n, b, c, d, up, down, f, high, low)
  {
    b := Hex(XC, X0, X9, X5, XF, X1, X3, XA);
    c := Hex(X7, XB, XD, X5, X7, XA, X3, XA);
    d := Hex(X1, XC, X7, XD, X7, X5, X1, X3);
    up, down, f, high, low := 0x10_0000, 0x1000, 0x6395_7b3a, 0x2_3cdd, 0xfce;
  }

  lemma Made20(n: nat) returns (b: Hex, c: Hex, d: Hex, up: nat, down: nat, f: nat, high: nat, low: nat)
    requires n == 20
    ensures Made(n, b, c, d, up, down, f, high, low)
  {
    b := Hex(XB, XD, X7, X8, X2, XE, X1, X7);
    c := Hex(XC, X0, X9, X5, XF, X1, X3, XA);
    d := Hex(X7, XB, XD, X5, X7, XA, X3, XA);
    up, down, f, high, low := 0x20, 0x800_0000, 0xb950_ab12, 0x15, 0x3fd_3082;
  }

  lemma Made21(n: nat) returns (b: Hex, c: Hex, d: Hex, up: nat, down: nat, f: nat, high: nat, low: nat)
    requires n == 21
    ensures Made(n, b, c, d, up, down, f, high, low)
  {
    b := Hex(X3, XD, X1, XE, X3, XE, X6, XC);
    c := Hex(XB, XD, X7, X8, X2, XE, X1, X7);
    d := Hex(XC, X0, X9, X5, XF, X1, X3, XA);
    up, down, f, high, low := 0x200, 0x80_0000, 0x3d7c_3e2d, 0x177, 0x15_ccba;
  }

  lemma Made22(n: nat) returns (b: Hex, c: Hex, d: Hex, up: nat, down: nat, f: nat, high: nat, low: nat)
    requires n == 22
    ensures Made(n, b, c, d, up, down, f, high, low)
  {
    b := Hex(X6, X8, XB, X7, XB, X3, XE, X3);
    c := Hex(X3, XD, X1, XE, X3, XE, X6, XC);
    d := Hex(XB, XD, X7, X8, X2, XE, X1, X7);
    up, down, f, high, low := 0x4000, 0x4_0000, 0x2836_326b, 0x305b, 0x2_0a26;
  }

  lemma Made23(n: nat) returns (b: Hex, c: Hex, d: Hex, up: nat, down: nat, f: nat, high: nat, low: nat)
    requires n == 23
    ensures Made(n, b, c, d, up, down, f, high, low)
  {
    b := Hex(XE, XB, X4, X1, X6, X4, X3, XE);
    c := Hex(X6, X8, XB, X7, XB, X3, XE, X3);
    d := Hex(X3, XD, X1, XE, X3, XE, X6, XC);
    up, down, f, high, low := 0x10_0000, 0x1000, 0x69a1_a5af, 0xeedc, 0xf8e;
  }

  lemma Made24(n: nat) returns (b: Hex, c: Hex, d: Hex, up: nat, down: nat, f: nat, high: nat, low: nat)
    requires n == 24
    ensures Made(n, b, c, d, up, down, f, high, low)
  {
    b := Hex(XE, X4, X2, X2, X5, X3, X1, XA);
    c := Hex(XE, XB, X4, X1, X6, X4, X3, XE);
    d := Hex(X6, X8, XB, X7, XB, X3, XE, X3);
    up, down, f, high, low := 0x20, 0x800_0000, 0xe362_571e, 8, 0x262_6370;
  }

  lemma Made25(n: nat) returns (b: Hex, c: Hex, d: Hex, up: nat, down: nat, f: nat, high: nat, low: nat)
    requires n == 25
    ensures Made(n, b, c, d, up, down, f, high, low)
  {
    b := Hex(X3, X0, X6, XE, XC, X1, X2, X2);
    c := Hex(XE, X4, X2, X2, X5, X3, X1, XA);
    d := Hex(XE, XB, X4, X1, X6, X4, X3, XE);
    up, down, f, high, low := 0x200, 0x80_0000, 0x2462_5322, 0xa0, 0x51_0edb;
  }

  lemma Made26(n: nat) returns (b: Hex, c: Hex, d: Hex, up: nat, down: nat, f: nat, high: nat, low: nat)
    requires n == 26
    ensures Made(n, b, c, d, up, down, f, high, low)
  {
    b := Hex(XD, X2, X8, XC, X7, X7, XC, X2);
    c := Hex(X3, X0, X6, XE, XC, X1, X2, X2);
    d := Hex(XE, X4, X2, X2, X5, X3, X1, XA);
    up, down, f, high, low := 0x4000, 0x4_0000, 0xd04c_d322, 0x2c18, 0x3_44e7;
  }

  lemma Made27(n: nat) returns (b: Hex, c: Hex, d: Hex, up: nat, down: nat, f: nat, high: nat, low: nat)
    requires n == 27
    ensures Made(n, b, c, d, up, down, f, high, low)
  {
    b := Hex(XA, X3, XC, X6, X6, X3, XD, XA);
    c := Hex(XD, X2, X8, XC, X7, X7, XC, X2);
    d := Hex(X3, X0, X6, XE, XC, X1, X2, X2);
    up, down, f, high, low := 0x10_0000, 0x1000, 0xe2c6_77c2, 0xc42d, 0xfc9;
  }

  lemma Made28(n: nat) returns (b: Hex, c: Hex, d: Hex, up: nat, down: nat, f: nat, high: nat, low: nat)
    requires n == 28
    ensures Made(n, b, c, d, up, down, f, high, low)
  {
    b := Hex(XA, X0, X5, X7, X2, X8, X0, X7);
    c := Hex(XA, X3, XC, X6, X6, X3, XD, XA);
    d := Hex(XD, X2, X8, XC, X7, X7, XC, X2);
    up, down, f, high, low := 0x20, 0x800_0000, 0xa146_201a, 0xf, 0x398_ca41;
  }

  lemma Made29(n: nat) returns (b: Hex, c: Hex, d: Hex, up: nat, down: nat, f: nat, high: nat, low: nat)
    requires n == 29
    ensures Made(n, b, c, d, up, down, f, high, low)
  {
    b := Hex(X1, X3, X7, X0, X7, X0, X3, X6);
    c := Hex(XA, X0, X5, X7, X2, X8, X0, X7);
    d := Hex(XA, X3, XC, X6, X6, X3, XD, XA);
    up, down, f, high, low := 0x200, 0x80_0000, 0x0351_6817, 0x1a5, 0x4d_83d1;
  }

  lemma Made30(n: nat) returns (b: Hex, c: Hex, d: Hex, up: nat, down: nat, f: nat, high: nat, low: nat)
    requires n == 30
    ensures Made(n, b, c, d, up, down, f, high, low)
  {
    b := Hex(XA, XE, X7, X8, X1, X3, XD, XB);
    c := Hex(X1, X3, X7, X0, X7, X0, X3, X6);
    d := Hex(XA, X0, X5, X7, X2, X8, X0, X7);
    up, down, f, high, low := 0x4000, 0x4_0000, 0xb370_5033, 0x2fa9, 0x1_b6e6;
  }

  lemma Made31(n: nat) returns (b: Hex, c: Hex, d: Hex, up: nat, down: nat, f: nat, high: nat, low: nat)
    requires n == 31
    ensures Made(n, b, c, d, up, down, f, high, low)
  {
    b := Hex(X1, XC, X3, X1, XC, X3, X8, X4);
    c := Hex(XA, XE, X7, X8, X1, X3, XD, XB);
    d := Hex(X1, X3, X7, X0, X7, X0, X3, X6);
    up, down, f, high, low := 0x10_0000, 0x1000, 0xbc38_43cd, 0xe_9b9b, 0x85e;
  }

  lemma Made32(n: nat) returns (b: Hex, c: Hex, d: Hex, up: nat, down: nat, f: nat, high: nat, low: nat)
    requires n == 32
    ensures Made(n, b, c, d, up, down, f, high, low)
  {
    b := Hex(XA, X2, X2, X0, X5, XF, X1, XF);
    c := Hex(X1, XC, X3, X1, XC, X3, X8, X4);
    d := Hex(XA, XE, X7, X8, X1, X3, XD, XB);
    up, down, f, high, low := 0x10, 0x1000_0000, 0x1069_8f40, 2, 0x3d4_38b8;
  }

  lemma Made33(n: nat) returns (b: Hex, c: Hex, d: Hex, up: nat, down: nat, f: nat, high: nat, low: nat)
    requires n == 33
    ensures Made(n, b, c, d, up, down, f, high, low)
  {
    b := Hex(XD, XF, X6, X3, XE, XA, XA, X1);
    c := Hex(XA, X2, X2, X0, X5, XF, X1, XF);
    d := Hex(X1, XC, X3, X1, XC, X3, X8, X4);
    up, down, f, high, low := 0x800, 0x20_0000, 0x6172_763a, 0x4ba, 0x1c_8096;
  }

  lemma Made34(n: nat) returns (b: Hex, c: Hex, d: Hex, up: nat, down: nat, f: nat, high: nat, low: nat)
    requires n == 34
    ensures Made(n, b, c, d, up, down, f, high, low)
  {
    b := Hex(XC, X3, X6, X8, X9, XF, X5, XB);
    c := Hex(XD, XF, X6, X3, XE, XA, XA, X1);
    d := Hex(XA, X2, X2, X0, X5, XF, X1, XF);
    up, down, f, high, low := 0x1_0000, 0x1_0000, 0xbe2b_2ae5, 0x47fa, 0x4f8b;
  }

  lemma Made35(n: nat) returns (b: Hex, c: Hex, d: Hex, up: nat, down: nat, f: nat, high: nat, low: nat)
    requires n == 35
    ensures Made(n, b, c, d, up, down, f, high, low)
  {
    b := Hex(X1, X2, XF, X3, XE, X7, X5, X5);
    c := Hex(XC, X3, X6, X8, X9, XF, X5, XB);
    d := Hex(XD, XF, X6, X3, XE, XA, XA, X1);
    up, down, f, high, low := 0x80_0000, 0x200, 0x0ef8_92af, 0x57_7f14, 0x1da;
  }

  lemma Made36(n: nat) returns (b: Hex, c: Hex, d: Hex, up: nat, down: nat, f: nat, high: nat, low: nat)
    requires n == 36
    ensures Made(n, b, c, d, up, down, f, high, low)
  {
    b := Hex(X0, X0, X4, XB, X6, X6, X6, X9);
    c := Hex(X1, X2, XF, X3, XE, X7, X5, X5);
    d := Hex(XC, X3, X6, X8, X9, XF, X5, XB);
    up, down, f, high, low := 0x10, 0x1000_0000, 0xd1d0_1e67, 5, 0x5f2_f34c;
  }

  lemma Made37(n: nat) returns (b: Hex, c: Hex, d: Hex, up: nat, down: nat, f: nat, high: nat, low: nat)
    requires n == 37
    ensures Made(n, b, c, d, up, down, f, high, low)
  {
    b := Hex(X5, XF, X7, XA, X9, XB, X2, XE);
    c := Hex(X0, X0, X4, XB, X6, X6, X6, X9);
    d := Hex(X1, X2, XF, X3, XE, X7, X5, X5);
    up, down, f, high, low := 0x800, 0x20_0000, 0x4dc2_1a12, 0x2e8, 0x9_8916;
  }

  lemma Made38(n: nat) returns (b: Hex, c: Hex, d: Hex, up: nat, down: nat, f: nat, high: nat, low: nat)
    requires n == 38
    ensures Made(n, b, c, d, up, down, f, high, low)
  {
    b := Hex(XA, XB, XC, X3, X4, XE, X1, X6);
    c := Hex(X5, XF, X7, XA, X9, XB, X2, XE);
    d := Hex(X0, X0, X4, XB, X6, X6, X6, X9);
    up, down, f, high, low := 0x1_0000, 0x1_0000, 0xf4f2_b351, 0xfea1, 0xe606;
  }

  lemma Made39(n: nat) returns (b: Hex, c: Hex, d: Hex, up: nat, down: nat, f: nat, high: nat, low: nat)
    requires n == 39
    ensures Made(n, b, c, d, up, down, f, high, low)
  {
    b := Hex(X9, X1, XC, XA, X4, XC, XB, X7);
    c := Hex(XA, XB, XC, X3, X4, XE, X1, X6);
    d := Hex(X5, XF, X7, XA, X9, XB, X2, XE);
    up, down, f, high, low := 0x80_0000, 0x200, 0x6573_998f, 0x12_3f5e, 0x68;
  }

  lemma Made40(n: nat) returns (b: Hex, c: Hex, d: Hex, up: nat, down: nat, f: nat, high: nat, low: nat)
    requires n == 40
    ensures Made(n, b, c, d, up, down, f, high, low)
  {
    b := Hex(XC, X5, XD, XC, X8, XC, X1, X5);
    c := Hex(X9, X1, XC, XA, X4, XC, XB, X7);
    d := Hex(XA, XB, XC, X3, X4, XE, X1, X6);
    up, down, f, high, low := 0x10, 0x1000_0000, 0xffd5_8eb4, 8, 0x7eb_a8a8;
  }

  lemma Made41(n: nat) returns (b: Hex, c: Hex, d: Hex, up: nat, down: nat, f: nat, high: nat, low: nat)
    requires n == 41
    ensures Made(n, b, c, d, up, down, f, high, low)
  {
    b := Hex(X4, X4, X9, X7, X1, X6, X9, XD);
    c := Hex(XC, X5, XD, XC, X8, XC, X1, X5);
    d := Hex(X9, X1, XC, XA, X4, XC, XB, X7);
    up, down, f, high, low := 0x800, 0x20_0000, 0x1081_d63f, 0x537, 0x6_4ccf;
  }

  lemma Made42(n: nat) returns (b: Hex, c: Hex, d: Hex, up: nat, down: nat, f: nat, high: nat, low: nat)
    requires n == 42
    ensures Made(n, b, c, d, up, down, f, high, low)
  {
    b := Hex(X7, X6, XF, XD, X9, X3, XD, X4);
    c := Hex(X4, X4, X9, X7, X1, X6, X9, XD);
    d := Hex(XC, X5, XD, XC, X8, XC, X1, X5);
    up, down, f, high, low := 0x1_0000, 0x1_0000, 0xf7b6_095c, 0x5e6f, 0x8698;
  }

  lemma Made43(n: nat) returns (b: Hex, c: Hex, d: Hex, up: nat, down: nat, f: nat, high: nat, low: nat)
    requires n == 43
    ensures Made(n, b, c, d, up, down, f, high, low)
  {
    b := Hex(XF, XD, X9, X5, XF, X2, X4, X3);
    c := Hex(X7, X6, XF, XD, X9, X3, XD, X4);
    d := Hex(X4, X4, X9, X7, X1, X6, X9, XD);
    up, down, f, high, low := 0x80_0000, 0x200, 0xcfff_770a, 0x4d_3210, 0x24;
  }

  lemma Made44(n: nat) returns (b: Hex, c: Hex, d: Hex, up: nat, down: nat, f: nat, high: nat, low: nat)
    requires n == 44
    ensures Made(n, b, c, d, up, down, f, high, low)
  {
    b := Hex(X0, XF, XE, X3, X2, X4, X5, X3);
    c := Hex(XF, XD, X9, X5, XF, X2, X4, X3);
    d := Hex(X7, X6, XF, XD, X9, X3, XD, X4);
    up, down, f, high, low := 0x10, 0x1000_0000, 0x848b_45c4, 0xa, 0x2f7_2c9a;
  }

  lemma Made45(n: nat) returns (b: Hex, c: Hex, d: Hex, up: nat, down: nat, f: nat, high: nat, low: nat)
    requires n == 45
    ensures Made(n, b, c, d, up, down, f, high, low)
  {
    b := Hex(X3, XF, X5, X5, XE, XD, XF, XD);
    c := Hex(X0, XF, XE, X3, X2, X4, X5, X3);
    d := Hex(XF, XD, X9, X5, XF, X2, X4, X3);
    up, down, f, high, low := 0x800, 0x20_0000, 0xcd23_3bed, 0x157, 0x1c_69a6;
  }

  lemma Made46(n: nat) returns (b: Hex, c: Hex, d: Hex, up: nat, down: nat, f: nat, high: nat, low: nat)
    requires n == 46
    ensures Made(n, b, c, d, up, down, f, high, low)
  {
    b := Hex(X2, X2, XA, X3, X1, XF, X5, X4);
    c := Hex(X3, XF, X5, X5, XE, XD, XF, XD);
    d := Hex(X0, XF, XE, X3, X2, X4, X5, X3);
    up, down, f, high, low := 0x1_0000, 0x1_0000, 0x1215_d6fa, 0x2f4e, 0x4635;
  }

  lemma Made47(n: nat) returns (b: Hex, c: Hex, d: Hex, up: nat, down: nat, f: nat, high: nat, low: nat)
    requires n == 47
    ensures Made(n, b, c, d, up, down, f, high, low)
  {
    b := Hex(X6, X8, XD, X8, X4, XE, XA, X2);
    c := Hex(X2, X2, XA, X3, X1, XF, X5, X4);
    d := Hex(X3, XF, X5, X5, XE, XD, XF, XD);
    up, down, f, high, low := 0x80_0000, 0x200, 0x752e_bc0b, 0x24_df1b, 0xc3;
  }

  lemma Made48(n: nat) returns (b: Hex, c: Hex, d: Hex, up: nat, down: nat, f: nat, high: nat, low: nat)
    requires n == 48
    ensures Made(n, b, c, d, up, down, f, high, low)
  {
    b := Hex(XC, XA, X7, XD, X2, XD, XB, XD);
    c := Hex(X6, X8, XD, X8, X4, XE, XA, X2);
    d := Hex(X2, X2, XA, X3, X1, XF, X5, X4);
    up, down, f, high, low := 0x40, 0x400_0000, 0xb7a5_a31d, 0x3a, 0x324_b3de;
  }

  lemma Made49(n: nat) returns (b: Hex, c: Hex, d: Hex, up: nat, down: nat, f: nat, high: nat, low: nat)
    requires n == 49
    ensures Made(n, b, c, d, up, down, f, high, low)
  {
    b := Hex(X9, X3, XA, XA, X2, X5, X7, X7);
    c := Hex(XC, XA, X7, XD, X2, XD, XB, XD);
    d := Hex(X6, X8, XD, X8, X4, XE, XA, X2);
    up, down, f, high, low := 0x400, 0x40_0000, 0x5dd2_98c2, 0x30e, 0x20_b7ad;
  }

  lemma Made50(n: nat) returns (b: Hex, c: Hex, d: Hex, up: nat, down: nat, f: nat, high: nat, low: nat)
    requires n == 50
    ensures Made(n, b, c, d, up, down, f, high, low)
  {
    b := Hex(X1, X6, X8, X8, XD, XC, X8, X5);
    c := Hex(X9, X3, XA, XA, X2, X5, X7, X7);
    d := Hex(XC, XA, X7, XD, X2, XD, XB, XD);
    up, down, f, high, low := 0x8000, 0x2_0000, 0xa420_fbb0, 0x5c46, 0x1_6df9;
  }

  lemma Made51(n: nat) returns (b: Hex, c: Hex, d: Hex, up: nat, down: nat, f: nat, high: nat, low: nat)
    requires n == 51
    ensures Made(n, b, c, d, up, down, f, high, low)
  {
    b := Hex(XC, XD, X8, X5, XB, X8, XC, XB);
    c := Hex(X1, X6, X8, X8, XD, XC, X8, X5);
    d := Hex(X9, X3, XA, XA, X2, X5, X7, X7);
    up, down, f, high, low := 0x20_0000, 0x800, 0xfb5d_264e, 0x18_4dbe, 0x444;
  }

  lemma Made52(n: nat) returns (b: Hex, c: Hex, d: Hex, up: nat, down: nat, f: nat, high: nat, low: nat)
    requires n == 52
    ensures Made(n, b, c, d, up, down, f, high, low)
  {
    b := Hex(X5, X6, X1, XE, X0, X6, X8, X9);
    c := Hex(XC, XD, X8, X5, XB, X8, XC, XB);
    d := Hex(X1, X6, X8, X8, XD, XC, X8, X5);
    up, down, f, high, low := 0x40, 0x400_0000, 0x32fa_9f30, 0xb, 0x1e6a;
  }

  lemma Made53(n: nat) returns (b: Hex, c: Hex, d: Hex, up: nat, down: nat, f: nat, high: nat, low: nat)
    requires n == 53
    ensures Made(n, b, c, d, up, down, f, high, low)
  {
    b := Hex(X5, X6, X2, X5, XA, X1, X1, X4);
    c := Hex(X5, X6, X1, XE, X0, X6, X8, X9);
    d := Hex(XC, XD, X8, X5, XB, X8, XC, XB);
    up, down, f, high, low := 0x400, 0x40_0000, 0x2061_e1bd, 0x317, 0x37_8ad4;
  }

  lemma Made54(n: nat) returns (b: Hex, c: Hex, d: Hex, up: nat, down: nat, f: nat, high: nat, low: nat)
    requires n == 54
    ensures Made(n, b, c, d, up, down, f, high, low)
  {
    b := Hex(X3, X4, X5, X0, XF, X4, X2, XB);
    c := Hex(X5, X6, X2, X5, XA, X1, X1, X4);
    d := Hex(X5, X6, X1, XE, X0, X6, X8, X9);
    up, down, f, high, low := 0x8000, 0x2_0000, 0xebd4_5c6b, 0x5ca5, 0x9b3;
  }

  lemma Made55(n: nat) returns (b: Hex, c: Hex, d: Hex, up: nat, down: nat, f: nat, high: nat, low: nat)
    requires n == 55
    ensures Made(n, b, c, d, up, down, f, high, low)
  {
    b := Hex(X3, X9, X2, XA, XD, X0, XD, X0);
    c := Hex(X3, X4, X5, X0, XF, X4, X2, XB);
    d := Hex(X5, X6, X2, X5, XA, X1, X1, X4);
    up, down, f, high, low := 0x20_0000, 0x800, 0x8daa_2ad0, 0xd_2991, 0x72a;
  }

  lemma Made56(n: nat) returns (b: Hex, c: Hex, d: Hex, up: nat, down: nat, f: nat, high: nat, low: nat)
    requires n == 56
    ensures Made(n, b, c, d, up, down, f, high, low)
  {
    b := Hex(X1, XE, X7, X7, XF, XA, X6, X1);
    c := Hex(X3, X9, X2, XA, XD, X0, XD, X0);
    d := Hex(X3, X4, X5, X0, XF, X4, X2, XB);
    up, down, f, high, low := 0x40, 0x400_0000, 0xe6d5_2b25, 0x2b, 0xa3_4a88;
  }

  lemma Made57(n: nat) returns (b: Hex, c: Hex, d: Hex, up: nat, down: nat, f: nat, high: nat, low: nat)
    requires n == 57
    ensures Made(n, b, c, d, up, down, f, high, low)
  {
    b := Hex(X4, X7, X4, XA, X9, XC, X8, XC);
    c := Hex(X1, XE, X7, X7, XF, XA, X6, X1);
    d := Hex(X3, X9, X2, XA, XD, X0, XD, X0);
    up, down, f, high, low := 0x400, 0x40_0000, 0xd9a8_45ce, 0x30, 0x26_20d9;
  }

  lemma Made58(n: nat) returns (b: Hex, c: Hex, d: Hex, up: nat, down: nat, f: nat, high: nat, low: nat)
    requires n == 58
    ensures Made(n, b, c, d, up, down, f, high, low)
  {
    b := Hex(XD, XF, XC, XE, X0, X0, XB, XC);
    c := Hex(X4, X7, X4, XA, X9, XC, X8, XC);
    d := Hex(X1, XE, X7, X7, XF, XA, X6, X1);
    up, down, f, high, low := 0x8000, 0x2_0000, 0xb884_9932, 0x4a58, 0xad16;
  }

  lemma Made59(n: nat) returns (b: Hex, c: Hex, d: Hex, up: nat, down: nat, f: nat, high: nat, low: nat)
    requires n == 59
    ensures Made(n, b, c, d, up, down, f, high, low)
  {
    b := Hex(X3, X6, X5, X9, X4, XB, X1, X4);
    c := Hex(XD, XF, XC, XE, X0, X0, XB, XC);
    d := Hex(X4, X7, X4, XA, X9, XC, X8, XC);
    up, down, f, high, low := 0x20_0000, 0x800, 0x6133_6bcb, 0x19_b66e, 0x7cd;
  }

  lemma Made60(n: nat) returns (b: Hex, c: Hex, d: Hex, up: nat, down: nat, f: nat, high: nat, low: nat)
    requires n == 60
    ensures Made(n, b, c, d, up, down, f, high, low)
  {
    b := Hex(X3, X0, X1, X3, X0, X1, X8, X2);
    c := Hex(X3, X6, X5, X9, X4, XB, X1, X4);
    d := Hex(XD, XF, XC, XE, X0, X0, XB, XC);
    up, down, f, high, low := 0x40, 0x400_0000, 0x066a_b4d7, 0x11, 0x108_cfe5;
  }

  lemma Made61(n: nat) returns (b: Hex, c: Hex, d: Hex, up: nat, down: nat, f: nat, high: nat, low: nat)
    requires n == 61
    ensures Made(n, b, c, d, up, down, f, high, low)
  {
    b := Hex(X7, X2, X4, X6, XF, XA, XD, X3);
    c := Hex(X3, X0, X1, X3, X0, X1, X8, X2);
    d := Hex(X3, X6, X5, X9, X4, XB, X1, X4);
    up, down, f, high, low := 0x400, 0x40_0000, 0xcbf5_ff79, 0x1a3, 0x3e_f26a;
  }

  lemma Made62(n: nat) returns (b: Hex, c: Hex, d: Hex, up: nat, down: nat, f: nat, high: nat, low: nat)
    requires n == 62
    ensures Made(n, b, c, d, up, down, f, high, low)
  {
    b := Hex(X6, XE, X1, X0, XA, X4, X7, X6);
    c := Hex(X7, X2, X4, X6, XF, XA, XD, X3);
    d := Hex(X3, X0, X1, X3, X0, X1, X8, X2);
    up, down, f, high, low := 0x8000, 0x2_0000, 0x9dba_04ac, 0x7f75, 0x1_227b;
  }

  lemma Made63(n: nat) returns (b: Hex, c: Hex, d: Hex, up: nat, down: nat, f: nat, high: nat, low: nat)
    requires n == 63
    ensures Made(n, b, c, d, up, down, f, high, low)
  {
    b := Hex(XF, XF, X4, XE, XA, X3, XE, XB);
    c := Hex(X6, XE, X1, X0, XA, X4, X7, X6);
    d := Hex(X7, X2, X4, X6, XF, XA, XD, X3);
    up, down, f, high, low := 0x20_0000, 0x800, 0x91ef_0399, 0x15_b11b, 0xac;
  }

  lemma FirstRound(n: nat) returns (b: Hex, c: Hex, d: Hex, up: nat, down: nat, f: nat, high: nat, low: nat)
    requires 0 <= n < 16
    ensures Made(n, b, c, d, up, down, f, high, low)
  {
    match n
    case 0 => b, c, d, up, down, f, high, low := Made0(n);
    case 1 => b, c, d, up, down, f, high, low := Made1(n);
    case 2 => b, c, d, up, down, f, high, low := Made2(n);
    case 3 => b, c, d, up, down, f, high, low := Made3(n);
    case 4 => b, c, d, up, down, f, high, low := Made4(n);
    case 5 => b, c, d, up, down, f, high, low := Made5(n);
    case 6 => b, c, d, up, down, f, high, low := Made6(n);
    case 7 => b, c, d, up, down, f, high, low := Made7(n);
    case 8 => b, c, d, up, down, f, high, low := Made8(n);
    case 9 => b, c, d, up, down, f, high, low := Made9(n);
    case 10 => b, c, d, up, down, f, high, low := Made10(n);
    case 11 => b, c, d, up, down, f, high, low := Made11(n);
    case 12 => b, c, d, up, down, f, high, low := Made12(n);
    case 13 => b, c, d, up, down, f, high, low := Made13(n);
    case 14 => b, c, d, up, down, f, high, low := Made14(n);
    case _ => b, c, d, up, down, f, high, low := Made15(n);
  }

  lemma SecondRound(n: nat) returns (b: Hex, c: Hex, d: Hex, up: nat, down: nat, f: nat, high: nat, low: nat)
    requires 16 <= n < 32
    ensures Made(n, b, c, d, up, down, f, high, low)
  {
    match n
    case 16 => b, c, d, up, down, f, high, low := Made16(n);
    case 17 => b, c, d, up, down, f, high, low := Made17(n);
    case 18 => b, c, d, up, down, f, high, low := Made18(n);
    case 19 => b, c, d, up, down, f, high, low := Made19(n);
    case 20 => b, c, d, up, down, f, high, low := Made20(n);
    case 21 => b, c, d, up, down, f, high, low := Made21(n);
    case 22 => b, c, d, up, down, f, high, low := Made22(n);
    case 23 => b, c, d, up, down, f, high, low := Made23(n);
    case 24 => b, c, d, up, down, f, high, low := Made24(n);
    case 25 => b, c, d, up, down, f, high, low := Made25(n);
    case 26 => b, c, d, up, down, f, high, low := Made26(n);
    case 27 => b, c, d, up, down, f, high, low := Made27(n);
    case 28 => b, c, d, up, down, f, high, low := Made28(n);
    case 29 => b, c, d, up, down, f, high, low := Made29(n);
    case 30 => b, c, d, up, down, f, high, low := Made30(n);
    case _ => b, c, d, up, down, f, high, low := Made31(n);
  }

  lemma ThirdRound(n: nat) returns (b: Hex, c: Hex, d: Hex, up: nat, down: nat, f: nat, high: nat, low: nat)
    requires 32 <= n < 48
    ensures Made(n, b, c, d, up, down, f, high, low)
  {
    match n
    case 32 => b, c, d, up, down, f, high, low := Made32(n);
    case 33 => b, c, d, up, down, f, high, low := Made33(n);
    case 34 => b, c, d, up, down, f, high, low := Made34(n);
    case 35 => b, c, d, up, down, f, high, low := Made35(n);
    case 36 => b, c, d, up, down, f, high, low := Made36(n);
    case 37 => b, c, d, up, down, f, high, low := Made37(n);
    case 38 => b, c, d, up, down, f, high, low := Made38(n);
    case 39 => b, c, d, up, down, f, high, low := Made39(n);
    case 40 => b, c, d, up, down, f, high, low := Made40(n);
    case 41 => b, c, d, up, down, f, high, low := Made41(n);
    case 42 => b, c, d, up, down, f, high, low := Made42(n);
    case 43 => b, c, d, up, down, f, high, low := Made43(n);
    case 44 => b, c, d, up, down, f, high, low := Made44(n);
    case 45 => b, c, d, up, down, f, high, low := Made45(n);
    case 46 => b, c, d, up, down, f, high, low := Made46(n);
    case _ => b, c, d, up, down, f, high, low := Made47(n);
  }

  lemma FourthRound(n: nat) returns (b: Hex, c: Hex, d: Hex, up: nat, down: nat, f: nat, high: nat, low: nat)
    requires 48 <= n < 64
    ensures Made(n, b, c, d, up, down, f, high, low)
  {
    match n
    case 48 => b, c, d, up, down, f, high, low := Made48(n);
    case 49 => b, c, d, up, down, f, high, low := Made49(n);
    case 50 => b, c, d, up, down, f, high, low := Made50(n);
    case 51 => b, c, d, up, down, f, high, low := Made51(n);
    case 52 => b, c, d, up, down, f, high, low := Made52(n);
    case 53 => b, c, d, up, down, f, high, low := Made53(n);
    case 54 => b, c, d, up, down, f, high, low := Made54(n);
    case 55 => b, c, d, up, down, f, high, low := Made55(n);
    case 56 => b, c, d, up, down, f, high, low := Made56(n);
    case 57 => b, c, d, up, down, f, high, low := Made57(n);
    case 58 => b, c, d, up, down, f, high, low := Made58(n);
    case 59 => b, c, d, up, down, f, high, low := Made59(n);
    case 60 => b, c, d, up, down, f, high, low := Made60(n);
    case 61 => b, c, d, up, down, f, high, low := Made61(n);
    case 62 => b, c, d, up, down, f, high, low := Made62(n);
    case _ => b, c, d, up, down, f, high, low := Made63(n);
  }

  lemma EveryRound(n: nat) returns (b: Hex, c: Hex, d: Hex, up: nat, down: nat, f: nat, high: nat, low: nat)
    requires n < 64
    ensures Made(n, b, c, d, up, down, f, high, low)
  {
    if n < 16 {
      b, c, d, up, down, f, high, low := FirstRound(n);
    } else if n < 32 {
      b, c, d, up, down, f, high, low := SecondRound(n);
    } else if n < 48 {
      b, c, d, up, down, f, high, low := ThirdRound(n);
    } else {
      b, c, d, up, down, f, high, low := FourthRound(n);
    }
  }

  lemma WordInRound(round: nat, j: nat)
    requires round < 4 && j < 16
    ensures EmptyWord(RoundWords(round)[j]) == Word(16 * round + j)
  {
    if round == 0 {
      assert RoundWords(round)[j] == j;
    } else if round == 1 {
      assert RoundWords(round)[3] == 0;
    } else if round == 2 {
      assert RoundWords(round)[9] == 0;
    } else {
      assert RoundWords(round)[0] == 0;
    }
  }

  lemma Taken(x: seq<nat>, n: nat)
    requires n < 64 && IsEmptyBlock(x)
    ensures Takes(Rfc1321(), x, n, Word(n), Sine(n), Rotation(n)) && Rotation(n) <= 32
  {
    WordInRound(n / 16, n % 16);
  }

  /** The words of the padded empty message. */
  predicate IsEmptyBlock(x: seq<nat>) {
    |x| == 16 && forall j :: 0 <= j < |x| ==> x[j] == EmptyWord(j)
  }

  /** Where the trace is after `n` operations. */
  lemma {:induction false} Traced(x: seq<nat>, n: nat)
    requires n <= 64 && IsEmptyBlock(x)
    ensures Operations(Rfc1321(), x, n, INITIAL) == Placed(n, Trace(n), Trace(n + 3), Trace(n + 2), Trace(n + 1))
  {
    if n > 0 {
      Traced(x, n - 1);
      NextTraced(x, n - 1);
    }
  }

  lemma NextTraced(x: seq<nat>, n: nat)
    requires n < 64 && IsEmptyBlock(x)
    requires Operations(Rfc1321(), x, n, INITIAL) == Placed(n, Trace(n), Trace(n + 3), Trace(n + 2), Trace(n + 1))
    ensures Operations(Rfc1321(), x, n + 1, INITIAL) ==
      Placed(n + 1, Trace(n + 1), Trace(n + 4), Trace(n + 3), Trace(n + 2))
  {
    var b, c, d, up, down, f, high, low := EveryRound(n);
    Taken(x, n);
    PowerIs(Rotation(n));
    PowerIs(32 - Rotation(n));
    AuxiliaryIs(n, b, c, d);
    Advance(Rfc1321(), x, n, Trace(n), Trace(n + 3), Trace(n + 2), Trace(n + 1), Value(AuxiliaryHex(n, b, c, d)),
            Word(n), Sine(n), Rotation(n), high, low, Trace(n + 4));
  }

  lemma Advance(t: Tables, x: seq<nat>, n: nat, a: nat, b: nat, c: nat, d: nat, f: nat, word: nat, sine: nat, s: nat,
                high: nat, low: nat, v: nat)
    requires Takes(t, x, n, word, sine, s) && s <= 32 && f == Auxiliary(n, b, c, d)
    requires Makes(a, f, word, sine, b, Pow2(s), Pow2(32 - s), high, low, v)
    requires Operations(t, x, n, INITIAL) == Placed(n, a, b, c, d)
    ensures Operations(t, x, n + 1, INITIAL) == Placed(n + 1, d, v, b, c)
  {
    MixedTurns(t, x, n, a, b, c, d, f, word, sine, s, high, low, v);
    Placing(t, x, n, a, b, c, d, v);
    OneMore(t, x, n);
  }

  // ---------- the digest ----------

  lemma {:induction false} ZeroByteAt(i: nat)
    ensures ByteAt(0, i) == 0
  {
    if i > 0 {
      ZeroByteAt(i - 1);
    }
  }

  lemma ZeroLength()
    ensures LeBytes(0, 8) == ZeroBytes(8)
  {
    forall i | 0 <= i < 8 ensures LeBytes(0, 8)[i] == 0 {
      ZeroByteAt(i);
    }
  }

  /** The padded empty message is one block. */
  lemma EmptyPadded(b: Block)
    requires b == [0x80] + ZeroBytes(63)
    ensures Chopped([] + Padding(0)) == [b]
  {
    ZeroLength();
    assert ZeroBytes(55) + ZeroBytes(8) == ZeroBytes(63);
    var p := [] + Padding(0);
    assert p == b;
    assert p[0..64] == b;
  }

  lemma EmptyWords(b: Block)
    requires b == [0x80] + ZeroBytes(63)
    ensures IsEmptyBlock(WordsOf(b))
  {
    forall j | 0 <= j < 16 ensures WordsOf(b)[j] == EmptyWord(j) {
      var w := b[4 * j..4 * j + 4];
      assert forall i :: 0 <= i < 4 ==> w[i] == b[4 * j + i];
    }
  }

  /** The registers at the end. */
  const LAST := Regs(0xd98c_1dd4, 0x04b2_008f, 0x9809_80e9, 0x7e42_f8ec)

  function LastTraced(): Regs {
    Regs(Trace(64), Trace(67), Trace(66), Trace(65))
  }

  lemma LastAdded()
    ensures Plus(LastTraced(), INITIAL) == LAST
  {
  }

  lemma PlacedLast(n: nat)
    requires n == 64
    ensures Placed(n, Trace(n), Trace(n + 3), Trace(n + 2), Trace(n + 1)) == LastTraced()
  {
  }

  lemma AllTraced(x: seq<nat>, n: nat)
    requires n <= 64 && Placed(n, Trace(n), Trace(n + 3), Trace(n + 2), Trace(n + 1)) == LastTraced() && IsEmptyBlock(x)
    ensures Operations(Rfc1321(), x, n, INITIAL) == LastTraced()
  {
    Traced(x, n);
  }

  lemma EmptyTransformed(b: Block)
    requires b == [0x80] + ZeroBytes(63)
    ensures Transform(Rfc1321(), INITIAL, b) == LAST
  {
    EmptyWords(b);
    PlacedLast(|Rfc1321().words|);
    AllTraced(WordsOf(b), |Rfc1321().words|);
    LastAdded();
  }

  lemma EmptyDigested()
    ensures Digested(Rfc1321(), INITIAL, Chopped([] + Padding(0))) == LAST
  {
    var b := [0x80] + ZeroBytes(63);
    EmptyPadded(b);
    EmptyTransformed(b);
  }

  /** Four bytes, low-order byte first, are those of the number that they make. */
  lemma BytesOf(n: nat, p: Octet, q: Octet, r: Octet, s: Octet)
    requires n == LeWord([p, q, r, s])
    ensures LeBytes(n, 4) == [p, q, r, s]
  {
    assert n == p + 0x100 * (q + 0x100 * (r + 0x100 * s));
    assert n / 256 == q + 0x100 * (r + 0x100 * s) && n / 256 / 256 == r + 0x100 * s;
    assert ByteAt(n, 1) == ByteAt(n / 256, 0);
    assert ByteAt(n, 2) == ByteAt(n / 256, 1) == ByteAt(n / 256 / 256, 0);
    assert ByteAt(n, 3) == ByteAt(n / 256, 2) == ByteAt(n / 256 / 256, 1) == ByteAt(n / 256 / 256 / 256, 0);
  }

  /** Section 3.3 lists the initial registers byte by byte. */
  lemma InitialBytes()
    ensures Output(INITIAL) ==
      [0x01, 0x23, 0x45, 0x67, 0x89, 0xab, 0xcd, 0xef, 0xfe, 0xdc, 0xba, 0x98, 0x76, 0x54, 0x32, 0x10]
  {
    BytesOf(INITIAL.a, 0x01, 0x23, 0x45, 0x67);
    BytesOf(INITIAL.b, 0x89, 0xab, 0xcd, 0xef);
    BytesOf(INITIAL.c, 0xfe, 0xdc, 0xba, 0x98);
    BytesOf(INITIAL.d, 0x76, 0x54, 0x32, 0x10);
  }

  lemma LastBytes()
    ensures Output(LAST) ==
      [0xd4, 0x1d, 0x8c, 0xd9, 0x8f, 0x00, 0xb2, 0x04, 0xe9, 0x80, 0x09, 0x98, 0xec, 0xf8, 0x42, 0x7e]
  {
    BytesOf(LAST.a, 0xd4, 0x1d, 0x8c, 0xd9);
    BytesOf(LAST.b, 0x8f, 0x00, 0xb2, 0x04);
    BytesOf(LAST.c, 0xe9, 0x80, 0x09, 0x98);
    BytesOf(LAST.d, 0xec, 0xf8, 0x42, 0x7e);
  }

  /** `MD5 ("") = d41d8cd98f00b204e9800998ecf8427e`. */
  lemma EmptyDigest()
    ensures Hashed(Rfc1321(), []) ==
      [0xd4, 0x1d, 0x8c, 0xd9, 0x8f, 0x00, 0xb2, 0x04, 0xe9, 0x80, 0x09, 0x98, 0xec, 0xf8, 0x42, 0x7e]
  {
    EmptyDigested();
    LastBytes();
  }
}
