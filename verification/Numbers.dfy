/** Unsigned numbers as bits and as little-endian bytes. */
module Numbers {
  import opened Words

  function Pow2(n: nat): nat {
    if n == 0 then 1 else 2 * Pow2(n - 1)
  }

  lemma EightMore(a: nat)
    ensures Pow2(a + 8) == 256 * Pow2(a)
  {
    TwoMore(a);
    TwoMore(a + 2);
    TwoMore(a + 4);
    TwoMore(a + 6);
  }

  lemma TwoMore(a: nat)
    ensures Pow2(a + 2) == 4 * Pow2(a)
  {
    assert Pow2(a + 1) == 2 * Pow2(a);
  }

  lemma Pow2Values()
    ensures Pow2(8) == 0x100 && Pow2(16) == 0x1_0000
    ensures Pow2(32) == 0x1_0000_0000 && Pow2(64) == 0x1_0000_0000_0000_0000
  {
    EightMore(0);
    EightMore(8);
    EightMore(16);
    EightMore(24);
    EightMore(32);
    EightMore(40);
    EightMore(48);
    EightMore(56);
  }

  /** Bit `i` of a number. */
  predicate BitOf(v: nat, i: nat)
    decreases i
  {
    if i == 0 then v % 2 == 1 else BitOf(v / 2, i - 1)
  }

  /** The lowest `n` bits of a number, least significant first. */
  function ToBits(v: nat, n: nat): (r: seq<bool>)
    ensures |r| == n
  {
    if n == 0 then [] else [v % 2 == 1] + ToBits(v / 2, n - 1)
  }

  function FromBits(bits: seq<bool>): (r: nat)
    ensures r < Pow2(|bits|)
  {
    if bits == [] then 0 else (if bits[0] then 1 else 0) + 2 * FromBits(bits[1..])
  }

  lemma {:induction false} BitsRoundTrip(v: nat, n: nat)
    requires v < Pow2(n)
    ensures FromBits(ToBits(v, n)) == v
  {
    if n > 0 {
      BitsRoundTrip(v / 2, n - 1);
      assert ToBits(v, n)[1..] == ToBits(v / 2, n - 1);
    }
  }

  lemma {:induction false} NumberRoundTrip(bits: seq<bool>)
    ensures ToBits(FromBits(bits), |bits|) == bits
  {
    if bits != [] {
      NumberRoundTrip(bits[1..]);
      assert bits == [bits[0]] + bits[1..];
    }
  }

  // ---------- bytes ----------

  /** The bits of a byte string, in order. */
  function Flat(bytes: seq<Byte>): (r: seq<bool>)
    ensures |r| == 8 * |bytes|
  {
    if bytes == [] then [] else bytes[0] + Flat(bytes[1..])
  }

  /** Cuts a bit string into bytes. */
  function Chop(bits: seq<bool>): (r: seq<Byte>)
    requires |bits| % 8 == 0
    ensures 8 * |r| == |bits|
    decreases |bits|
  {
    if bits == [] then [] else [bits[..8]] + Chop(bits[8..])
  }

  lemma {:induction false} ChopFlat(bits: seq<bool>)
    requires |bits| % 8 == 0
    ensures Flat(Chop(bits)) == bits
    decreases |bits|
  {
    if bits != [] {
      ChopFlat(bits[8..]);
      assert Chop(bits)[1..] == Chop(bits[8..]);
      assert bits[..8] + bits[8..] == bits;
    }
  }

  lemma {:induction false} FlatAppend(a: seq<Byte>, b: seq<Byte>)
    ensures Flat(a + b) == Flat(a) + Flat(b)
  {
    if a == [] {
      assert a + b == b;
    } else {
      assert (a + b)[1..] == a[1..] + b;
      FlatAppend(a[1..], b);
    }
  }

  /** `v.to_le_bytes()` of a `k`-byte number. */
  function Le(v: nat, k: nat): (r: seq<Byte>)
    ensures |r| == k
  {
    Chop(ToBits(v, 8 * k))
  }

  /** `from_le_bytes`. */
  function UnLe(bytes: seq<Byte>): nat {
    FromBits(Flat(bytes))
  }

  lemma LeRoundTrip(v: nat, k: nat)
    requires v < Pow2(8 * k)
    ensures UnLe(Le(v, k)) == v
  {
    ChopFlat(ToBits(v, 8 * k));
    BitsRoundTrip(v, 8 * k);
  }

  function Halved(v: nat, m: nat): nat {
    if m == 0 then v else Halved(v / 2, m - 1)
  }

  lemma {:induction false} BitsSplit(v: nat, m: nat, n: nat)
    ensures ToBits(v, m + n) == ToBits(v, m) + ToBits(Halved(v, m), n)
  {
    if m > 0 {
      BitsSplit(v / 2, m - 1, n);
    }
  }

  lemma TwoHalves(v: nat, m: nat)
    ensures Halved(v, m + 2) == Halved(v / 4, m)
  {
    assert Halved(v, m + 2) == Halved(v / 2, m + 1);
    assert v / 2 / 2 == v / 4;
  }

  lemma EightHalves(v: nat)
    ensures Halved(v, 8) == v / 256
  {
    TwoHalves(v, 6);
    TwoHalves(v / 4, 4);
    TwoHalves(v / 4 / 4, 2);
    TwoHalves(v / 4 / 4 / 4, 0);
    assert v / 4 / 4 / 4 / 4 == v / 256;
  }

  /** The low-order byte comes first. */
  lemma LowByteFirst(v: nat, k: nat)
    ensures Le(v, k + 1) == [ToBits(v, 8)] + Le(v / 256, k)
  {
    BitsSplit(v, 8, 8 * k);
    EightHalves(v);
  }
}
