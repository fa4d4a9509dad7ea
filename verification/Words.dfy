/** 64-bit words as their bits, least significant first, with the operations that the bitmap uses. */
module Words {

  datatype Option<+T> = None | Some(value: T)

  datatype Result<+T, +E> = Ok(value: T) | Err(error: E)

  const U32_LIMIT: nat := 0x1_0000_0000
  const U64_LIMIT: nat := 0x1_0000_0000_0000_0000

  /** `x % c`, by repeated subtraction. */
  function Rem(x: nat, c: nat): (r: nat)
    requires c > 0
    ensures r < c
    ensures x < 2 * c ==> r == if x < c then x else x - c
  {
    if x < c then x else Rem(x - c, c)
  }

  /** `x / d`, by repeated subtraction. */
  function Quot(x: nat, d: nat): nat
    requires d > 0
  {
    if x < d then 0 else 1 + Quot(x - d, d)
  }

  lemma {:induction false} QuotBounds(x: nat, d: nat)
    requires d > 0
    ensures Quot(x, d) * d <= x < (Quot(x, d) + 1) * d
  {
    if x >= d {
      QuotBounds(x - d, d);
      var q := Quot(x - d, d);
      assert Quot(x, d) == q + 1;
      assert (q + 1) * d == q * d + d && (q + 2) * d == (q + 1) * d + d;
    }
  }

  lemma ProductGrows(a: int, b: int, d: nat)
    requires a <= b
    ensures a * d <= b * d
  {
    assert (b - a) * d >= 0;
  }

  lemma QuotientIsUnique(x: nat, d: nat, q: nat, r: nat)
    requires d > 0 && q * d <= x && x < (r + 1) * d
    ensures q <= r
  {
    if q > r {
      ProductGrows(r + 1, q, d);
    }
  }

  type Word = w: seq<bool> | |w| == 64 witness seq(64, _ => false)

  /** One byte of a serialized bitmap, least significant bit first. */
  type Byte = b: seq<bool> | |b| == 8 witness seq(8, _ => false)

  function Zero(): Word { seq(64, _ => false) }

  function ZeroByte(): Byte { seq(8, _ => false) }

  function Not(w: Word): Word {
    seq(64, i requires 0 <= i < 64 => !w[i])
  }

  function And(a: Word, b: Word): Word {
    seq(64, i requires 0 <= i < 64 => a[i] && b[i])
  }

  function Or(a: Word, b: Word): Word {
    seq(64, i requires 0 <= i < 64 => a[i] || b[i])
  }

  /** `1u64 << i`. */
  function OneShl(i: nat): Word
    requires i < 64
  {
    seq(64, j => j == i)
  }

  /** `(1u64 << n) - 1`, or all ones when `n` is 64. */
  function LowMask(n: nat): Word {
    seq(64, i => i < n)
  }

  function Shr(w: Word, n: nat): Word {
    seq(64, i requires 0 <= i < 64 => i + n < 64 && w[i + n])
  }

  /** The position of the lowest set bit, 64 when there is none. */
  function TrailingZeros(w: Word): nat {
    TrailingZerosFrom(w, 0)
  }

  function TrailingZerosFrom(w: Word, i: nat): (r: nat)
    requires i <= 64
    ensures i <= r <= 64 && (r < 64 ==> w[r]) && forall j :: i <= j < r ==> !w[j]
    decreases 64 - i
  {
    if i == 64 || w[i] then i else TrailingZerosFrom(w, i + 1)
  }

  lemma ZeroHasNoBit(w: Word)
    ensures TrailingZeros(w) == 64 <==> w == Zero()
  {
    if w == Zero() {
      assert forall i :: 0 <= i < 64 ==> !w[i];
    } else {
      assert exists i :: 0 <= i < 64 && w[i] != Zero()[i];
    }
  }

  lemma MaskTests(w: Word, i: nat)
    requires i < 64
    ensures And(w, OneShl(i)) == Zero() <==> !w[i]
  {
    if And(w, OneShl(i)) == Zero() {
      assert And(w, OneShl(i))[i] == Zero()[i];
    }
  }

  lemma FreeBits(w: Word)
    ensures var free := Not(w); var bit := TrailingZeros(free);
      && (free == Zero() <==> bit == 64)
      && (bit < 64 ==> !w[bit])
      && forall i :: 0 <= i < bit ==> w[i]
  {
    ZeroHasNoBit(Not(w));
    forall i | 0 <= i < TrailingZeros(Not(w)) ensures w[i] {
      assert !Not(w)[i];
    }
  }

  /** `(bytes[src] as u64) << (8 * j)`. */
  function Spread(b: Byte, j: nat): Word
    requires j < 8
  {
    seq(64, i requires 0 <= i < 64 => i / 8 == j && b[i % 8])
  }
}
