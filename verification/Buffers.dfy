/** Filling a buffer field by field, and reading the fields back. */
module Buffers {
  import opened Words
  import opened Numbers

  datatype Field = Field(at: nat, bytes: seq<Byte>) {
    function End(): nat { at + |bytes| }
  }

  function Zeroed(n: nat): (b: seq<Byte>)
    ensures |b| == n
  {
    seq(n, _ => ZeroByte())
  }

  /** `b[at..end].copy_from_slice(bytes)`. */
  function Put(b: seq<Byte>, f: Field): (r: seq<Byte>)
    requires f.End() <= |b|
    ensures |r| == |b|
  {
    b[..f.at] + f.bytes + b[f.End()..]
  }

  /** Fields that follow each other within `n` bytes. */
  ghost predicate Tidy(fields: seq<Field>, n: nat) {
    && (forall i :: 0 <= i < |fields| ==> fields[i].End() <= n)
    && forall i :: 0 < i < |fields| ==> fields[i - 1].End() <= fields[i].at
  }

  /** `b` after the first `k` fields were put. */
  ghost function Filled(b: seq<Byte>, fields: seq<Field>, k: nat): (r: seq<Byte>)
    requires Tidy(fields, |b|) && k <= |fields|
    ensures |r| == |b|
  {
    if k == 0 then b else Put(Filled(b, fields, k - 1), fields[k - 1])
  }

  lemma PutReads(b: seq<Byte>, f: Field)
    requires f.End() <= |b|
    ensures Put(b, f)[f.at..f.End()] == f.bytes
  {
  }

  /** A put leaves everything before and behind it alone. */
  lemma PutKeeps(b: seq<Byte>, f: Field, from: nat, to: nat)
    requires f.End() <= |b| && from <= to <= |b| && (to <= f.at || f.End() <= from)
    ensures Put(b, f)[from..to] == b[from..to]
  {
    forall i | from <= i < to ensures Put(b, f)[i] == b[i] {
      PutAtIndex(b, f, i);
    }
  }

  lemma PutAtIndex(b: seq<Byte>, f: Field, i: nat)
    requires f.End() <= |b| && i < |b|
    ensures Put(b, f)[i] == if f.at <= i < f.End() then f.bytes[i - f.at] else b[i]
  {
  }

  lemma {:induction false} EarlierEndsFirst(fields: seq<Field>, n: nat, i: nat, j: nat)
    requires Tidy(fields, n) && i < j < |fields|
    ensures fields[i].End() <= fields[j].at
    decreases j
  {
    if i + 1 < j {
      EarlierEndsFirst(fields, n, i, j - 1);
    }
    assert fields[j - 1].End() <= fields[j].at;
  }

  /** Every field reads back. */
  lemma {:induction false} FieldReads(b: seq<Byte>, fields: seq<Field>, k: nat, i: nat)
    requires Tidy(fields, |b|) && i < k <= |fields|
    ensures Filled(b, fields, k)[fields[i].at..fields[i].End()] == fields[i].bytes
    decreases k
  {
    var before, f := Filled(b, fields, k - 1), fields[k - 1];
    if i == k - 1 {
      PutReads(before, f);
    } else {
      FieldReads(b, fields, k - 1, i);
      EarlierEndsFirst(fields, |b|, i, k - 1);
      PutKeeps(before, f, fields[i].at, fields[i].End());
    }
  }

  /** The number at `at`, little-endian, `size` bytes wide. */
  function Num(b: seq<Byte>, at: nat, size: nat): nat
    requires at + size <= |b|
  {
    UnLe(b[at..at + size])
  }

  // ---------- formats ----------

  /** One item of an on-disk format: a little-endian number of `size` bytes, or bytes as they are. */
  datatype Entry = Number(at: nat, size: nat, value: nat) | Raw(at: nat, bytes: seq<Byte>) {
    function End(): nat { at + if Number? then size else |bytes| }

    predicate Fits() { Number? ==> value < Limit(size) }

    /** The item reads back from `b`. */
    ghost predicate In(b: seq<Byte>) {
      End() <= |b| && if Number? then Num(b, at, size) == value else b[at..End()] == bytes
    }
  }

  /** What numbers of one, two, four and eight bytes stay below. */
  function Limit(size: nat): nat {
    if size == 1 then 256 else if size == 2 then 65536 else if size == 4 then U32_LIMIT
    else if size == 8 then U64_LIMIT else 0
  }

  ghost predicate TidyEntries(entries: seq<Entry>, n: nat) {
    && (forall i :: 0 <= i < |entries| ==> entries[i].End() <= n)
    && forall i :: 0 < i < |entries| ==> entries[i - 1].End() <= entries[i].at
  }

  function FieldOf(e: Entry): (f: Field)
    ensures f.at == e.at && f.End() == e.End()
  {
    Field(e.at, if e.Number? then Le(e.value, e.size) else e.bytes)
  }

  function FieldsOf(entries: seq<Entry>): (r: seq<Field>)
    ensures |r| == |entries|
    ensures forall i :: 0 <= i < |r| ==> r[i] == FieldOf(entries[i])
  {
    seq(|entries|, i requires 0 <= i < |entries| => FieldOf(entries[i]))
  }

  lemma FieldsAreTidy(entries: seq<Entry>, n: nat)
    requires TidyEntries(entries, n)
    ensures Tidy(FieldsOf(entries), n)
  {
  }

  lemma LimitIsPow2(size: nat)
    ensures Limit(size) <= Pow2(8 * size)
  {
    Pow2Values();
  }

  lemma EntryReads(e: Entry, b: seq<Byte>)
    requires e.Fits() && e.End() <= |b| && b[e.at..e.End()] == FieldOf(e).bytes
    ensures e.In(b)
  {
    if e.Number? {
      LimitIsPow2(e.size);
      LeRoundTrip(e.value, e.size);
    }
  }

  method PutAt(b: array<Byte>, f: Field)
    requires f.End() <= b.Length
    modifies b
    ensures b[..] == Put(old(b[..]), f)
  {
    forall i | 0 <= i < |f.bytes| {
      b[f.at + i] := f.bytes[i];
    }
  }

  method PutFields(b: array<Byte>, fields: seq<Field>)
    requires Tidy(fields, b.Length)
    modifies b
    ensures b[..] == Filled(old(b[..]), fields, |fields|)
  {
    for k := 0 to |fields|
      invariant b[..] == Filled(old(b[..]), fields, k)
    {
      PutAt(b, fields[k]);
    }
  }
}
