/** What the word operations of the MD5 reference do, bit by bit and as numbers. */
module Md5Words {
  import opened Md5Reference
  import opened Numbers
  import Words

  lemma {:induction false} ZeroBit(i: nat)
    ensures !BitOf(0, i)
  {
    if i > 0 {
      ZeroBit(i - 1);
    }
  }

  lemma {:induction false} AndBit(x: nat, y: nat, i: nat)
    ensures BitOf(And(x, y), i) == (BitOf(x, i) && BitOf(y, i))
    decreases i
  {
    if x == 0 || y == 0 {
      ZeroBit(i);
    } else if i > 0 {
      AndBit(x / 2, y / 2, i - 1);
    }
  }

  lemma {:induction false} OrBit(x: nat, y: nat, i: nat)
    ensures BitOf(Or(x, y), i) == (BitOf(x, i) || BitOf(y, i))
    decreases i
  {
    if x == 0 && y == 0 {
      ZeroBit(i);
    } else if i > 0 {
      OrBit(x / 2, y / 2, i - 1);
    }
  }

  lemma {:induction false} XorBit(x: nat, y: nat, i: nat)
    ensures BitOf(Xor(x, y), i) == (BitOf(x, i) != BitOf(y, i))
    decreases i
  {
    if x == 0 && y == 0 {
      ZeroBit(i);
    } else if i > 0 {
      XorBit(x / 2, y / 2, i - 1);
    }
  }

  lemma {:induction false} FlippedBit(x: nat, k: nat, i: nat)
    requires x < Pow2(k) && i < k
    ensures BitOf(Pow2(k) - 1 - x, i) == !BitOf(x, i)
    decreases i
  {
    var y := Pow2(k) - 1 - x;
    assert x < 2 * Pow2(k - 1);
    if i > 0 {
      assert y / 2 == Pow2(k - 1) - 1 - x / 2;
      FlippedBit(x / 2, k - 1, i - 1);
    }
  }

  lemma NotBit(x: nat, i: nat)
    requires x < M32 && i < 32
    ensures BitOf(Not(x), i) == !BitOf(x, i)
  {
    Pow2Values();
    FlippedBit(x, 32, i);
  }

  lemma {:induction false} PowersMultiply(a: nat, b: nat)
    ensures Pow2(a) * Pow2(b) == Pow2(a + b)
  {
    if a > 0 {
      PowersMultiply(a - 1, b);
    }
  }

  lemma Places(s: nat)
    requires 0 < s <= 32
    ensures 2 * (Pow2(s - 1) * Pow2(32 - s)) == M32 && Pow2(s) == 2 * Pow2(s - 1) && Pow2(32 - (s - 1)) == 2 * Pow2(32 - s)
  {
    Pow2Values();
    PowersMultiply(s - 1, 32 - s);
    assert Pow2(32) == 2 * Pow2(31);
  }

  lemma Swapped(lo: nat, hi: nat, q: nat, p: nat, rest: nat, up: nat)
    requires up == 2 * p && hi == q * p + rest
    ensures (2 * lo + q) * p + rest == lo * up + hi
  {
    assert lo * up == 2 * (lo * p);
  }

  /** `x` is `hi` in front of `lo`, which has `n` bits. */
  predicate Joined(x: nat, hi: nat, lo: nat, n: nat) {
    x == hi * Pow2(n) + lo && lo < Pow2(n)
  }

  /** The first place of a rotation moves the top bit of `hi` behind `lo`. */
  lemma FirstPlace(x: nat, s: nat, hi: nat, lo: nat) returns (q: nat, rest: nat)
    requires 0 < s <= 32 && Joined(x, hi, lo, 32 - s) && hi < Pow2(s)
    ensures Joined(Turn(x), rest, 2 * lo + q, 32 - (s - 1)) && rest < Pow2(s - 1) && q <= 1
    ensures hi == q * Pow2(s - 1) + rest
  {
    var k, p := Pow2(32 - s), Pow2(s - 1);
    Places(s);
    q := if hi >= p then 1 else 0;
    rest := hi - q * p;
    TopBit(x, hi, lo, k, p, q, rest);
  }

  /** One rotation by one place. */
  function Turn(x: nat): nat {
    (2 * x) % M32 + (2 * x) / M32
  }

  lemma NoTurn(x: nat, hi: nat, lo: nat)
    requires Joined(x, hi, lo, 32) && hi < Pow2(0)
    ensures RotateLeft(x, 0) == lo * Pow2(0) + hi
  {
    assert hi == 0;
  }

  lemma OneTurn(x: nat, s: nat, hi: nat, lo: nat, q: nat, rest: nat)
    requires s > 0 && RotateLeft(Turn(x), s - 1) == (2 * lo + q) * Pow2(s - 1) + rest && hi == q * Pow2(s - 1) + rest
    ensures RotateLeft(x, s) == lo * Pow2(s) + hi
  {
    Swapped(lo, hi, q, Pow2(s - 1), rest, Pow2(s));
  }

  /** The high `s` bits and the others change places. */
  lemma {:induction false} RotateSwaps(x: nat, s: nat, hi: nat, lo: nat)
    requires s <= 32 && Joined(x, hi, lo, 32 - s) && hi < Pow2(s)
    ensures RotateLeft(x, s) == lo * Pow2(s) + hi
    decreases s
  {
    if s == 0 {
      NoTurn(x, hi, lo);
    } else {
      var q, rest := FirstPlace(x, s, hi, lo);
      RotateSwaps(Turn(x), s - 1, rest, 2 * lo + q);
      OneTurn(x, s, hi, lo, q, rest);
    }
  }

  /** One place to the left: the top bit `q` comes back at the bottom. */
  lemma TopBit(x: nat, hi: nat, lo: nat, k: nat, p: nat, q: nat, rest: nat)
    requires x == hi * k + lo && lo < k && hi == q * p + rest && rest < p && q <= 1 && 2 * (p * k) == M32
    ensures Turn(x) == rest * (2 * k) + (2 * lo + q)
  {
    assert hi * k == q * (p * k) + rest * k;
    assert rest * k + k <= p * k by {
      assert (rest + 1) * k <= p * k;
    }
    var y := 2 * (rest * k + lo);
    assert 2 * x == q * M32 + y && y < M32;
    assert rest * (2 * k) == 2 * (rest * k);
  }

  lemma Parts(x: nat, k: nat, p: nat) returns (hi: nat, lo: nat)
    requires k > 0 && k * p == M32 && x < M32
    ensures x == hi * k + lo && lo < k && hi < p
  {
    hi, lo := x / k, x % k;
    assert p > 0;
    Words.QuotientIsUnique(x, k, hi, p - 1);
  }

  /** `x <<< s` is `x` times two to the power `s`, with what exceeds 32 bits added at the bottom. */
  lemma RotateIsProduct(x: nat, s: nat)
    requires x < M32 && s <= 32
    ensures RotateLeft(x, s) == (x * Pow2(s)) % M32 + (x * Pow2(s)) / M32
  {
    var k, p := Pow2(32 - s), Pow2(s);
    Pow2Values();
    PowersMultiply(32 - s, s);
    var hi, lo := Parts(x, k, p);
    RotateSwaps(x, s, hi, lo);
    Exceeding(x, hi, lo, k, p);
  }

  lemma Exceeding(x: nat, hi: nat, lo: nat, k: nat, p: nat)
    requires x == hi * k + lo && lo < k && k * p == M32
    ensures (x * p) % M32 + (x * p) / M32 == lo * p + hi
  {
    assert x * p == hi * (k * p) + lo * p;
    assert lo * p < k * p by {
      assert (lo + 1) * p <= k * p;
    }
  }

  // ---------- bytes ----------

  lemma ByteLater(n: nat, i: nat)
    ensures ByteAt(n, i + 1) == ByteAt(n / 256, i)
  {
  }

  /** A word is the number that its four bytes make. */
  lemma WordOfBytes(n: nat)
    requires n < M32
    ensures LeWord(LeBytes(n, 4)) == n
  {
    var n1 := n / 256;
    var n2 := n1 / 256;
    ByteLater(n, 0);
    ByteLater(n, 1);
    ByteLater(n, 2);
    ByteLater(n1, 0);
    ByteLater(n1, 1);
    ByteLater(n2, 0);
    assert n2 / 256 < 256;
  }

  lemma HighBytes(n: nat, i: nat)
    ensures ByteAt(n, i + 4) == ByteAt(n / M32, i)
  {
    ByteLater(n, i + 3);
    ByteLater(n / 256, i + 2);
    ByteLater(n / 256 / 256, i + 1);
    ByteLater(n / 256 / 256 / 256, i);
    assert n / 256 / 256 / 256 / 256 == n / M32;
  }

  lemma Multiple(m: nat, low: nat)
    ensures (256 * m + low) % 256 == low % 256 && (256 * m + low) / 256 == m + low / 256
  {
  }

  /** What is added above `k` bytes does not change them. */
  lemma {:induction false} LowByte(k: nat, high: nat, low: nat, i: nat)
    requires i < k
    ensures ByteAt(high * Pow2(8 * k) + low, i) == ByteAt(low, i)
    decreases i
  {
    var m := high * Pow2(8 * (k - 1));
    EightMore(8 * (k - 1));
    assert high * Pow2(8 * k) == 256 * m;
    Multiple(m, low);
    if i > 0 {
      ByteLater(256 * m + low, i - 1);
      ByteLater(low, i - 1);
      LowByte(k - 1, high, low / 256, i - 1);
    }
  }

  lemma LowBytes(high: nat, low: nat)
    ensures LeBytes(high * M32 + low, 8)[..4] == LeBytes(low, 4)
  {
    Pow2Values();
    forall i | 0 <= i < 4 ensures LeBytes(high * M32 + low, 8)[i] == ByteAt(low, i) {
      LowByte(4, high, low, i);
    }
  }

  lemma FourHighBytes(n: nat)
    ensures LeBytes(n, 8)[4..] == LeBytes(n / M32, 4)
  {
    forall i | 0 <= i < 4 ensures LeBytes(n, 8)[4..][i] == ByteAt(n / M32, i) {
      HighBytes(n, i);
    }
  }

  /** Section 3.2: the low-order word of the length comes first. */
  lemma LengthWords(n: nat)
    requires n < M64
    ensures LeWord(LeBytes(n, 8)[..4]) == n % M32 && LeWord(LeBytes(n, 8)[4..]) == n / M32
  {
    LowBytes(n / M32, n % M32);
    FourHighBytes(n);
    WordOfBytes(n % M32);
    WordOfBytes(n / M32);
  }
}
