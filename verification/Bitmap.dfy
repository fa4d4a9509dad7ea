/** The allocation bitmap: one bit per extent, packed in 64-bit words. */
module Bitmaps {
  import opened Words

  /** Bit `i` of a byte string, least significant first in each byte. */
  predicate ByteBit(bytes: seq<Byte>, i: nat)
    requires i < 8 * |bytes|
  {
    bytes[i / 8][i % 8]
  }

  /** How many words a scan of `count` words that starts at `start` and wraps visits before `w`. */
  function Turn(start: nat, count: nat, w: nat): nat
    requires start < count && w < count
  {
    if w >= start then w - start else w - start + count
  }

  /** The scan meets bit `i` no later than bit `j`. */
  predicate MetBefore(start: nat, count: nat, i: nat, j: nat)
    requires start < count && i / 64 < count && j / 64 < count
  {
    Turn(start, count, i / 64) < Turn(start, count, j / 64) || (i / 64 == j / 64 && i <= j)
  }

  /** The first `n` bits of a word sequence. */
  function BitsOf(words: seq<Word>, n: nat): seq<bool>
    requires n <= 64 * |words|
  {
    seq(n, i requires 0 <= i < n => words[i / 64][i % 64])
  }

  /** Every bit that the scan met in its first `step` words is set. */
  ghost predicate ScannedFull(bits: seq<bool>, start: nat, count: nat, step: nat)
    requires start < count && |bits| <= 64 * count
  {
    forall i :: 0 <= i < |bits| && Turn(start, count, i / 64) < step ==> bits[i]
  }

  /** The word visited at `step`. */
  lemma VisitedAt(start: nat, count: nat, step: nat, w: nat)
    requires start < count && step < count && w < count
    ensures Turn(start, count, w) == step <==> w == Rem(start + step, count)
  {
  }

  /** A word whose clear bits are all past the end of the bitmap is full. */
  lemma WordFull(words: seq<Word>, n: nat, start: nat, step: nat)
    requires step < |words| && start < |words| && n <= 64 * |words|
    requires ScannedFull(BitsOf(words, n), start, |words|, step)
    requires var wi := Rem(start + step, |words|); wi * 64 + TrailingZeros(Not(words[wi])) >= n || Not(words[wi]) == Zero()
    ensures ScannedFull(BitsOf(words, n), start, |words|, step + 1)
  {
    var wi := Rem(start + step, |words|);
    FreeBits(words[wi]);
    forall i | 0 <= i < n && Turn(start, |words|, i / 64) < step + 1 ensures BitsOf(words, n)[i] {
      VisitedAt(start, |words|, step, i / 64);
      if i / 64 == wi {
        assert i % 64 < TrailingZeros(Not(words[wi]));
      }
    }
  }

  /** The lowest clear bit of the first word that has one is the first clear bit of the scan. */
  lemma FirstMet(words: seq<Word>, n: nat, start: nat, step: nat, i: nat)
    requires step < |words| && start < |words| && n <= 64 * |words|
    requires ScannedFull(BitsOf(words, n), start, |words|, step)
    requires var wi := Rem(start + step, |words|); wi * 64 + TrailingZeros(Not(words[wi])) < n && Not(words[wi]) != Zero()
    requires i < n && !BitsOf(words, n)[i]
    ensures var wi := Rem(start + step, |words|);
      MetBefore(start, |words|, wi * 64 + TrailingZeros(Not(words[wi])), i)
  {
    var wi := Rem(start + step, |words|);
    FreeBits(words[wi]);
    VisitedAt(start, |words|, step, i / 64);
    VisitedAt(start, |words|, step, wi);
  }

  lemma FirstOfAll(words: seq<Word>, n: nat, start: nat, step: nat)
    requires step < |words| && start < |words| && n <= 64 * |words|
    requires ScannedFull(BitsOf(words, n), start, |words|, step)
    requires var wi := Rem(start + step, |words|); wi * 64 + TrailingZeros(Not(words[wi])) < n && Not(words[wi]) != Zero()
    ensures var wi := Rem(start + step, |words|);
      forall i :: 0 <= i < n && !BitsOf(words, n)[i] ==>
        MetBefore(start, |words|, wi * 64 + TrailingZeros(Not(words[wi])), i)
  {
    var wi := Rem(start + step, |words|);
    forall i | 0 <= i < n && !BitsOf(words, n)[i]
      ensures MetBefore(start, |words|, wi * 64 + TrailingZeros(Not(words[wi])), i)
    {
      FirstMet(words, n, start, step, i);
    }
  }

  lemma SetInWords(words: seq<Word>, n: nat, wi: nat, bit: nat)
    requires wi < |words| && bit < 64 && wi * 64 + bit < n <= 64 * |words|
    ensures BitsOf(words[wi := Or(words[wi], OneShl(bit))], n) == BitsOf(words, n)[wi * 64 + bit := true]
  {
  }

  /** Scans for a clear bit, starting at the hint's word and going once around. Fails only when
      every bit is set; otherwise finds the first clear bit that the scan meets. */
  method ScanWords(words: seq<Word>, n: nat, hint: nat) returns (r: Option<nat>)
    requires |words| == (n + 63) / 64
    ensures r.None? ==> forall i :: 0 <= i < n ==> BitsOf(words, n)[i]
    ensures r.Some? ==> r.value < n && !BitsOf(words, n)[r.value]
    ensures r.Some? ==> forall i :: 0 <= i < n && !BitsOf(words, n)[i] ==>
      MetBefore(Rem(hint / 64, |words|), |words|, r.value, i)
  {
    var nwords := |words|;
    if nwords == 0 {
      return None;
    }
    var start := Rem(hint / 64, nwords);
    for step := 0 to nwords
      invariant ScannedFull(BitsOf(words, n), start, nwords, step)
    {
      var wi := Rem(start + step, nwords);
      var free := Not(words[wi]);
      FreeBits(words[wi]);
      if free != Zero() {
        var id := wi * 64 + TrailingZeros(free);
        if id < n {
          FirstOfAll(words, n, start, step);
          return Some(id);
        }
      }
      WordFull(words, n, start, step);
    }
    return None;
  }

  /** Like `ScanWords`, confined to the window [start, start + count): the first and last words are
      masked to the window, and a hint outside it starts the scan at the window's first word. */
  method ScanWindow(words: seq<Word>, n: nat, hint: nat, start: nat, count: nat) returns (r: Option<nat>)
    requires |words| == (n + 63) / 64 && start + count <= n
    ensures r.None? ==> forall i :: start <= i < start + count ==> BitsOf(words, n)[i]
    ensures r.Some? ==> start <= r.value < start + count && !BitsOf(words, n)[r.value]
    ensures r.Some? ==> forall i :: start <= i < start + count && !BitsOf(words, n)[i] ==>
      WindowMetBefore(hint, start, count, r.value, i)
  {
    if count == 0 {
      return None;
    }
    var startWord, nwords := start / 64, WindowWords(start, count);
    var from := WindowFrom(hint, start, count);
    for step := 0 to nwords
      invariant WindowFull(BitsOf(words, n), start, start + count, from, nwords, step)
    {
      var wi := startWord + Rem(from + step, nwords);
      var free := FreeBitsInWindow(words[wi], wi, start, start + count);
      if free != Zero() {
        WindowHits(words, n, hint, start, count, step, free, wi);
        return Some(wi * 64 + TrailingZeros(free));
      }
      WindowMiss(words, n, hint, start, count, step, free, wi);
    }
    return None;
  }

  lemma WindowHits(words: seq<Word>, n: nat, hint: nat, start: nat, count: nat, step: nat, free: Word, wi: nat)
    requires |words| == (n + 63) / 64 && 0 < count && start + count <= n
    requires step < WindowWords(start, count)
    requires WindowFull(BitsOf(words, n), start, start + count, WindowFrom(hint, start, count),
                        WindowWords(start, count), step)
    requires wi == start / 64 + Rem(WindowFrom(hint, start, count) + step, WindowWords(start, count))
    requires FreeInWindow(words[wi], free, wi, start, start + count) && free != Zero()
    ensures start <= wi * 64 + TrailingZeros(free) < start + count
    ensures !BitsOf(words, n)[wi * 64 + TrailingZeros(free)]
    ensures forall i :: start <= i < start + count && !BitsOf(words, n)[i] ==>
      WindowMetBefore(hint, start, count, wi * 64 + TrailingZeros(free), i)
  {
    WindowFound(words, n, start, count, free, wi);
    forall i | start <= i < start + count && !BitsOf(words, n)[i]
      ensures WindowMetBefore(hint, start, count, wi * 64 + TrailingZeros(free), i)
    {
      WindowHit(words, n, hint, start, count, step, free, wi, i);
    }
  }

  ghost predicate FreeInWindow(w: Word, free: Word, wi: nat, start: nat, end: nat) {
    forall b :: 0 <= b < 64 ==> free[b] == (!w[b] && start <= wi * 64 + b < end)
  }

  /** Masking the first and the last word leaves exactly the clear bits inside the window. */
  function FreeBitsInWindow(w: Word, wi: nat, start: nat, end: nat): (free: Word)
    requires start < end && start / 64 <= wi <= (end - 1) / 64
    ensures FreeInWindow(w, free, wi, start, end)
  {
    var free := if wi == start / 64 then And(Not(w), Not(LowMask(start % 64))) else Not(w);
    if wi < (end - 1) / 64 then free
    else And(free, if end % 64 == 0 then LowMask(64) else LowMask(end % 64))
  }

  /** The words of a window and where in them a scan with this hint begins. */
  function WindowWords(start: nat, count: nat): nat
    requires 0 < count
  {
    (start + count - 1) / 64 - start / 64 + 1
  }

  function WindowFrom(hint: nat, start: nat, count: nat): nat
    requires 0 < count
  {
    if hint < start || hint >= start + count then 0 else hint / 64 - start / 64
  }

  lemma WindowMiss(words: seq<Word>, n: nat, hint: nat, start: nat, count: nat, step: nat, free: Word, wi: nat)
    requires |words| == (n + 63) / 64 && 0 < count && start + count <= n
    requires step < WindowWords(start, count)
    requires WindowFull(BitsOf(words, n), start, start + count, WindowFrom(hint, start, count),
                        WindowWords(start, count), step)
    requires wi == start / 64 + Rem(WindowFrom(hint, start, count) + step, WindowWords(start, count))
    requires FreeInWindow(words[wi], free, wi, start, start + count) && free == Zero()
    ensures WindowFull(BitsOf(words, n), start, start + count, WindowFrom(hint, start, count),
                       WindowWords(start, count), step + 1)
  {
    WindowWordFull(BitsOf(words, n), words[wi], free, wi, start, start + count,
                   WindowFrom(hint, start, count), WindowWords(start, count), step);
  }

  lemma WindowHit(words: seq<Word>, n: nat, hint: nat, start: nat, count: nat, step: nat, free: Word, wi: nat,
                  i: nat)
    requires |words| == (n + 63) / 64 && 0 < count && start + count <= n
    requires step < WindowWords(start, count)
    requires WindowFull(BitsOf(words, n), start, start + count, WindowFrom(hint, start, count),
                        WindowWords(start, count), step)
    requires wi == start / 64 + Rem(WindowFrom(hint, start, count) + step, WindowWords(start, count))
    requires FreeInWindow(words[wi], free, wi, start, start + count) && free != Zero()
    requires start <= i < start + count && !BitsOf(words, n)[i]
    ensures start <= wi * 64 + TrailingZeros(free) < start + count
    ensures WindowMetBefore(hint, start, count, wi * 64 + TrailingZeros(free), i)
  {
    FirstMetInWindow(BitsOf(words, n), words[wi], free, wi, hint, start, count, step, i);
  }

  lemma WindowFound(words: seq<Word>, n: nat, start: nat, count: nat, free: Word, wi: nat)
    requires |words| == (n + 63) / 64 && 0 < count && start + count <= n
    requires start / 64 <= wi <= (start + count - 1) / 64
    requires FreeInWindow(words[wi], free, wi, start, start + count) && free != Zero()
    ensures start <= wi * 64 + TrailingZeros(free) < start + count
    ensures !BitsOf(words, n)[wi * 64 + TrailingZeros(free)]
  {
    ZeroHasNoBit(free);
  }

  class Bitmap {
    var words: seq<Word>
    var n: nat

    ghost predicate Valid()
      reads this
    {
      |words| == (n + 63) / 64
    }

    /** The bits that stand for extents. */
    ghost function Bits(): (s: seq<bool>)
      reads this
      requires Valid()
    {
      BitsOf(words, n)
    }

    constructor (n: nat)
      ensures Valid() && this.n == n
      ensures Bits() == seq(n, _ => false)
    {
      this.n := n;
      this.words := seq((n + 63) / 64, _ => Zero());
    }

    method SetBit(id: nat) returns (changed: bool)
      requires Valid() && id < n
      modifies this`words
      ensures Valid() && Bits() == old(Bits())[id := true]
      ensures changed == !old(Bits())[id]
    {
      var w := id / 64;
      var mask := OneShl(id % 64);
      MaskTests(words[w], id % 64);
      if And(words[w], mask) != Zero() {
        return false;
      }
      words := words[w := Or(words[w], mask)];
      return true;
    }

    method ClearBit(id: nat) returns (changed: bool)
      requires Valid() && id < n
      modifies this`words
      ensures Valid() && Bits() == old(Bits())[id := false]
      ensures changed == old(Bits())[id]
    {
      var w := id / 64;
      var mask := OneShl(id % 64);
      MaskTests(words[w], id % 64);
      if And(words[w], mask) == Zero() {
        return false;
      }
      words := words[w := And(words[w], Not(mask))];
      return true;
    }

    method Test(id: nat) returns (set_: bool)
      requires Valid() && id < n
      ensures set_ == Bits()[id]
    {
      set_ := words[id / 64][id % 64];
    }

    /** Sets a clear bit and moves the hint past it; fails exactly when there is none. */
    method AllocOne(hint: nat) returns (r: Option<nat>, hint': nat)
      requires Valid()
      modifies this`words
      ensures Valid()
      ensures r.None? ==> Bits() == old(Bits()) && hint' == hint && forall i :: 0 <= i < n ==> Bits()[i]
      ensures r.Some? ==>
        && r.value < n && !old(Bits())[r.value] && Bits() == old(Bits())[r.value := true]
        && hint' == r.value + 1
        && forall i :: 0 <= i < n && !old(Bits())[i] ==>
             MetBefore(Rem(hint / 64, |words|), |words|, r.value, i)
    {
      r := ScanWords(words, n, hint);
      if r.None? {
        return r, hint;
      }
      var id := r.value;
      SetInWords(words, n, id / 64, id % 64);
      words := words[id / 64 := Or(words[id / 64], OneShl(id % 64))];
      hint' := id + 1;
    }

    method AllocOneInRange(hint: nat, start: nat, count: nat) returns (r: Option<nat>, hint': nat)
      requires Valid() && start + count <= n
      modifies this`words
      ensures Valid()
      ensures r.None? ==>
        Bits() == old(Bits()) && hint' == hint && forall i :: start <= i < start + count ==> Bits()[i]
      ensures r.Some? ==>
        && start <= r.value < start + count && !old(Bits())[r.value]
        && Bits() == old(Bits())[r.value := true] && hint' == r.value + 1
        && forall i :: start <= i < start + count && !old(Bits())[i] ==>
             WindowMetBefore(hint, start, count, r.value, i)
    {
      r := ScanWindow(words, n, hint, start, count);
      if r.None? {
        return r, hint;
      }
      var id := r.value;
      SetInWords(words, n, id / 64, id % 64);
      words := words[id / 64 := Or(words[id / 64], OneShl(id % 64))];
      hint' := id + 1;
    }

    // ---------- serialization ----------

    /** Bit i goes to bit i % 8 of byte i / 8. */
    method Serialize() returns (out: seq<Byte>)
      requires Valid()
      ensures |out| == (n + 7) / 8
      ensures forall i :: 0 <= i < n ==> ByteBit(out, i) == Bits()[i]
    {
      out := SerializeWords(words, (n + 7) / 8);
      forall i | 0 <= i < n ensures ByteBit(out, i) == Bits()[i] {
        ByteIndex(words[i / 64], i);
      }
    }

    /** The window [start, start + count) as a bitmap of its own, zero-padded to whole bytes. */
    method SerializeRange(start: nat, count: nat) returns (out: seq<Byte>)
      requires Valid() && start + count <= n
      ensures |out| == (count + 7) / 8
      ensures forall i :: 0 <= i < 8 * |out| ==> ByteBit(out, i) == (i < count && Bits()[start + i])
    {
      out := seq((count + 7) / 8, _ => ZeroByte());
      var done := 0;
      while done < count
        invariant done <= count && |out| == (count + 7) / 8
        invariant forall i :: 0 <= i < 8 * |out| ==> ByteBit(out, i) == (i < done && Bits()[start + i])
      {
        var id := start + done;
        var fromBit := id % 64;
        var take := if 64 - fromBit < count - done then 64 - fromBit else count - done;
        var bits := And(Shr(words[id / 64], fromBit), LowMask(take));
        assert forall j :: 0 <= j < take ==> bits[j] == Bits()[id + j];
        out := PutBits(out, done, take, bits);
        done := done + take;
      }
    }

    /** Adds the set bits of `bytes` at offset `start`; never clears a bit. */
    method LoadRange(bytes: seq<Byte>, start: nat)
      requires Valid()
      requires forall i :: 0 <= i < 8 * |bytes| && ByteBit(bytes, i) ==> start + i < n
      modifies this`words
      ensures Valid()
      ensures forall i :: 0 <= i < n ==>
        Bits()[i] == (old(Bits())[i] || (start <= i < start + 8 * |bytes| && ByteBit(bytes, i - start)))
    {
      for k := 0 to |bytes|
        invariant Valid()
        invariant forall i :: 0 <= i < n ==>
          Bits()[i] == (old(Bits())[i] || (start <= i < start + 8 * k && ByteBit(bytes, i - start)))
      {
        if bytes[k] != ZeroByte() {
          assert forall j :: 0 <= j < 8 ==> bytes[k][j] == ByteBit(bytes, 8 * k + j);
          LoadByte(bytes[k], start + 8 * k);
        }
      }
    }

    method LoadByte(b: Byte, at: nat)
      requires Valid() && forall j :: 0 <= j < 8 && b[j] ==> at + j < n
      modifies this`words
      ensures Valid()
      ensures forall i :: 0 <= i < n ==> Bits()[i] == (old(Bits())[i] || (at <= i < at + 8 && b[i - at]))
    {
      for j := 0 to 8
        invariant Valid()
        invariant forall i :: 0 <= i < n ==> Bits()[i] == (old(Bits())[i] || (at <= i < at + j && b[i - at]))
      {
        if b[j] {
          var _ := SetBit(at + j);
        }
      }
    }

    /** Replaces the whole bitmap. */
    method Load(bytes: seq<Byte>)
      requires Valid() && |bytes| >= (n + 7) / 8
      modifies this`words
      ensures Valid()
      ensures forall i :: 0 <= i < n ==> Bits()[i] == ByteBit(bytes, i)
    {
      var wanted := (n + 7) / 8;
      for i := 0 to |words|
        invariant |words| == |old(words)|
        invariant forall k :: 0 <= k < n && k / 64 < i ==> words[k / 64][k % 64] == ByteBit(bytes, k)
      {
        var v := WordFromBytes(bytes[..wanted], i);
        words := words[i := v];
      }
    }
  }

  /** Word `i` of a byte string, with zeros past its end. */
  method WordFromBytes(bytes: seq<Byte>, i: nat) returns (v: Word)
    ensures forall k :: 0 <= k < 64 ==> v[k] == (64 * i + k < 8 * |bytes| && ByteBit(bytes, 64 * i + k))
  {
    v := Zero();
    for j := 0 to 8
      invariant forall k :: 0 <= k < 64 ==>
        v[k] == (k < 8 * j && 64 * i + k < 8 * |bytes| && ByteBit(bytes, 64 * i + k))
    {
      var src := i * 8 + j;
      if src < |bytes| {
        v := Or(v, Spread(bytes[src], j));
      }
    }
  }

  /** Copies the low `take` bits of a word into a byte string at bit `done`. */
  method PutBits(out: seq<Byte>, done: nat, take: nat, bits: Word) returns (r: seq<Byte>)
    requires take <= 64 && done + take <= 8 * |out|
    requires forall i :: done <= i < done + take ==> !ByteBit(out, i)
    ensures |r| == |out|
    ensures forall i :: 0 <= i < 8 * |out| ==>
      ByteBit(r, i) == if done <= i < done + take then bits[i - done] else ByteBit(out, i)
  {
    r := out;
    for j := 0 to take
      invariant |r| == |out|
      invariant forall i :: 0 <= i < 8 * |out| ==>
        ByteBit(r, i) == if done <= i < done + j then bits[i - done] else ByteBit(out, i)
    {
      var o := done + j;
      if bits[j] {
        SetByteBit(r, o);
        r := r[o / 8 := r[o / 8][o % 8 := true]];
      } else {
        assert !ByteBit(out, o);
        assert ByteBit(r, o) == ByteBit(out, o);
      }
    }
  }

  lemma SetByteBit(bytes: seq<Byte>, o: nat)
    requires o < 8 * |bytes|
    ensures var r := bytes[o / 8 := bytes[o / 8][o % 8 := true]];
      forall i :: 0 <= i < 8 * |bytes| ==> ByteBit(r, i) == (i == o || ByteBit(bytes, i))
  {
    var r := bytes[o / 8 := bytes[o / 8][o % 8 := true]];
    forall i | 0 <= i < 8 * |bytes| ensures ByteBit(r, i) == (i == o || ByteBit(bytes, i)) {
      if i / 8 == o / 8 && i != o {
        assert i % 8 != o % 8;
      }
    }
  }

  /** Byte `j` of a word in little-endian order. */
  function LeByte(w: Word, j: nat): Byte
    requires j < 8
  {
    w[8 * j..8 * j + 8]
  }

  lemma ByteIndex(w: Word, i: nat)
    ensures (i / 8) / 8 == i / 64
    ensures LeByte(w, (i / 8) % 8)[i % 8] == w[i % 64]
  {
  }

  method SerializeWords(words: seq<Word>, nbytes: nat) returns (out: seq<Byte>)
    requires nbytes <= 8 * |words|
    ensures |out| == nbytes
    ensures forall k :: 0 <= k < nbytes ==> out[k] == LeByte(words[k / 8], k % 8)
  {
    out := seq(nbytes, _ => ZeroByte());
    for i := 0 to |words|
      invariant |out| == nbytes
      invariant forall k :: 0 <= k < nbytes && k < 8 * i ==> out[k] == LeByte(words[k / 8], k % 8)
    {
      var j := 0;
      while j < 8 && i * 8 + j < nbytes
        invariant 0 <= j <= 8 && |out| == nbytes
        invariant forall k :: 0 <= k < nbytes && k < 8 * i + j ==> out[k] == LeByte(words[k / 8], k % 8)
      {
        assert (i * 8 + j) / 8 == i && (i * 8 + j) % 8 == j;
        out := out[i * 8 + j := LeByte(words[i], j)];
        j := j + 1;
      }
    }
  }

  // ---------- scanning a window ----------

  /** Every bit of the window that lies in the first `step` words of the scan is set. Words are
      numbered from the window's first word, and the scan starts at word `from`. */
  ghost predicate WindowFull(bits: seq<bool>, start: nat, end: nat, from: nat, count: nat, step: nat)
    requires start < end <= |bits| && from < count && count == (end - 1) / 64 - start / 64 + 1
  {
    forall i :: start <= i < end && Turn(from, count, i / 64 - start / 64) < step ==> bits[i]
  }

  /** The window's scan order. */
  predicate WindowMetBefore(hint: nat, start: nat, count: nat, i: nat, j: nat)
    requires start <= i < start + count && start <= j < start + count
  {
    var first, words, from := start / 64, WindowWords(start, count), WindowFrom(hint, start, count);
    Turn(from, words, i / 64 - first) < Turn(from, words, j / 64 - first) || (i / 64 == j / 64 && i <= j)
  }

  lemma WindowWordFull(bits: seq<bool>, w: Word, free: Word, wi: nat, start: nat, end: nat,
                       from: nat, count: nat, step: nat)
    requires start < end <= |bits| && from < count && step < count
    requires count == (end - 1) / 64 - start / 64 + 1
    requires wi == start / 64 + Rem(from + step, count)
    requires forall i :: start <= i < end && i / 64 == wi ==> bits[i] == w[i % 64]
    requires FreeInWindow(w, free, wi, start, end)
    requires free == Zero()
    requires WindowFull(bits, start, end, from, count, step)
    ensures WindowFull(bits, start, end, from, count, step + 1)
  {
    forall i | start <= i < end && Turn(from, count, i / 64 - start / 64) < step + 1 ensures bits[i] {
      VisitedAt(from, count, step, i / 64 - start / 64);
      if i / 64 == wi {
        assert !free[i % 64];
      }
    }
  }

  lemma FirstMetInWindow(bits: seq<bool>, w: Word, free: Word, wi: nat, hint: nat, start: nat, count: nat,
                         step: nat, i: nat)
    requires 0 < count && start + count <= |bits| && start <= i < start + count && !bits[i]
    requires step < WindowWords(start, count)
    requires wi == start / 64 + Rem(WindowFrom(hint, start, count) + step, WindowWords(start, count))
    requires WindowFull(bits, start, start + count, WindowFrom(hint, start, count), WindowWords(start, count), step)
    requires forall j :: start <= j < start + count && j / 64 == wi ==> bits[j] == w[j % 64]
    requires FreeInWindow(w, free, wi, start, start + count)
    requires free != Zero()
    ensures TrailingZeros(free) < 64 && start <= wi * 64 + TrailingZeros(free) < start + count
    ensures WindowMetBefore(hint, start, count, wi * 64 + TrailingZeros(free), i)
  {
    ZeroHasNoBit(free);
    var words, from := WindowWords(start, count), WindowFrom(hint, start, count);
    VisitedAt(from, words, step, i / 64 - start / 64);
    VisitedAt(from, words, step, wi - start / 64);
    if i / 64 == wi {
      assert free[i % 64];
    }
  }
}
