/** The hot-object cache: a key index, an access order and a slot table with a free list. */
module Caches {
  import opened Words
  import opened Recency

  // ---------- keys ----------

  const NUL := '\0'

  type Octet = x: nat | x < 256

  function Digit(n: nat): char
    requires n < 16
  {
    "0123456789abcdef"[n]
  }

  function Dec(n: nat): (s: string)
    ensures s != []
  {
    if n < 10 then [Digit(n)] else Dec(n / 10) + [Digit(n % 10)]
  }

  function Hex(v: seq<Octet>): (s: string)
    ensures |s| == 2 * |v|
  {
    if v == [] then "" else [Digit(v[0] / 16), Digit(v[0] % 16)] + Hex(v[1..])
  }

  function VersionPart(version: Option<seq<Octet>>): string {
    match version
    case None => "-"
    case Some(v) => Hex(v)
  }

  /** `{bucket}\0{key}\0{version or -}\0{size}`. */
  function ObjKey(bucket: string, key: string, version: Option<seq<Octet>>, size: nat): Key {
    bucket + [NUL] + key + [NUL] + VersionPart(version) + [NUL] + Dec(size)
  }

  predicate NoNul(s: string) {
    forall i :: 0 <= i < |s| ==> s[i] != NUL
  }

  lemma {:induction false} DecHasNoNul(n: nat)
    ensures NoNul(Dec(n))
  {
    if n >= 10 {
      DecHasNoNul(n / 10);
    }
  }

  lemma {:induction false} HexHasNoNul(v: seq<Octet>)
    ensures NoNul(Hex(v))
  {
    if v != [] {
      HexHasNoNul(v[1..]);
    }
  }

  lemma VersionHasNoNul(version: Option<seq<Octet>>)
    ensures NoNul(VersionPart(version))
  {
    if version.Some? {
      HexHasNoNul(version.value);
    }
  }

  /** Hexadecimal digits in lower case. */
  lemma DigitIsHexadecimal(n: nat)
    requires n < 16
    ensures Digit(n) as int == if n < 10 then '0' as int + n else 'a' as int + (n - 10)
  {
  }

  lemma DigitIsInjective(m: nat, n: nat)
    requires m < 16 && n < 16 && Digit(m) == Digit(n)
    ensures m == n
  {
  }

  lemma {:induction false} DecIsInjective(m: nat, n: nat)
    requires Dec(m) == Dec(n)
    ensures m == n
    decreases m
  {
    var a, b := Dec(m), Dec(n);
    assert a[|a| - 1] == Digit(m % 10) && b[|b| - 1] == Digit(n % 10);
    DigitIsInjective(m % 10, n % 10);
    if m >= 10 && n >= 10 {
      assert Dec(m / 10) == a[..|a| - 1] && Dec(n / 10) == b[..|b| - 1];
      DecIsInjective(m / 10, n / 10);
    } else {
      DecLength(m);
      DecLength(n);
    }
  }

  lemma DecLength(n: nat)
    ensures |Dec(n)| == 1 <==> n < 10
  {
  }

  lemma {:induction false} HexIsInjective(v: seq<Octet>, w: seq<Octet>)
    requires Hex(v) == Hex(w)
    ensures v == w
    decreases |v|
  {
    if v != [] && w != [] {
      var a, b := Hex(v), Hex(w);
      assert a[0] == b[0] && a[1] == b[1] && a[2..] == Hex(v[1..]) && b[2..] == Hex(w[1..]);
      DigitIsInjective(v[0] / 16, w[0] / 16);
      DigitIsInjective(v[0] % 16, w[0] % 16);
      HexIsInjective(v[1..], w[1..]);
      assert v == [v[0]] + v[1..] && w == [w[0]] + w[1..];
    }
  }

  /** What follows the last NUL is determined, and so is what precedes it. */
  lemma LastField(a: string, x: string, b: string, y: string)
    requires NoNul(x) && NoNul(y) && a + [NUL] + x == b + [NUL] + y
    ensures a == b && x == y
  {
    var s, t := a + [NUL] + x, b + [NUL] + y;
    assert |a| == |b| by {
      assert s[|a|] == NUL && t[|b|] == NUL;
      assert forall i :: |b| < i < |t| ==> t[i] == y[i - |b| - 1];
      assert forall i :: |a| < i < |s| ==> s[i] == x[i - |a| - 1];
    }
    assert s[..|a|] == a && t[..|b|] == b;
    assert s[|a| + 1..] == x && t[|b| + 1..] == y;
  }

  lemma FirstField(x: string, a: string, y: string, b: string)
    requires NoNul(x) && NoNul(y) && x + [NUL] + a == y + [NUL] + b
    ensures x == y && a == b
  {
    var s, t := x + [NUL] + a, y + [NUL] + b;
    assert |x| == |y| by {
      assert s[|x|] == NUL && t[|y|] == NUL;
      assert forall i :: 0 <= i < |x| ==> s[i] == x[i];
      assert forall i :: 0 <= i < |y| ==> t[i] == y[i];
    }
    assert s[..|x|] == x && t[..|y|] == y;
    assert s[|x| + 1..] == a && t[|y| + 1..] == b;
  }

  /** The key names the size of the object that it stands for. */
  ghost predicate Sized(k: Key, size: nat) {
    exists p: string :: k == p + [NUL] + Dec(size)
  }

  lemma ObjKeyIsSized(bucket: string, key: string, version: Option<seq<Octet>>, size: nat)
    ensures Sized(ObjKey(bucket, key, version, size), size)
  {
    var p := bucket + [NUL] + key + [NUL] + VersionPart(version);
    assert ObjKey(bucket, key, version, size) == p + [NUL] + Dec(size);
  }

  lemma SizeIsUnique(k: Key, m: nat, n: nat)
    requires Sized(k, m) && Sized(k, n)
    ensures m == n
  {
    var p: string :| k == p + [NUL] + Dec(m);
    var q: string :| k == q + [NUL] + Dec(n);
    DecHasNoNul(m);
    DecHasNoNul(n);
    LastField(p, Dec(m), q, Dec(n));
    DecIsInjective(m, n);
  }

  lemma VersionIsInjective(v: Option<seq<Octet>>, w: Option<seq<Octet>>)
    requires VersionPart(v) == VersionPart(w)
    ensures v == w
  {
    if v.Some? && w.Some? {
      HexIsInjective(v.value, w.value);
    } else {
      assert |VersionPart(v)| == |VersionPart(w)|;
    }
  }

  /** Different objects have different keys, even when object keys contain NUL; only bucket names must not. */
  lemma ObjKeyIsInjective(b1: string, k1: string, v1: Option<seq<Octet>>, s1: nat,
                          b2: string, k2: string, v2: Option<seq<Octet>>, s2: nat)
    requires NoNul(b1) && NoNul(b2) && ObjKey(b1, k1, v1, s1) == ObjKey(b2, k2, v2, s2)
    ensures b1 == b2 && k1 == k2 && v1 == v2 && s1 == s2
  {
    var p1, p2 := b1 + [NUL] + k1, b2 + [NUL] + k2;
    var q1, q2 := p1 + [NUL] + VersionPart(v1), p2 + [NUL] + VersionPart(v2);
    DecHasNoNul(s1);
    DecHasNoNul(s2);
    LastField(q1, Dec(s1), q2, Dec(s2));
    DecIsInjective(s1, s2);
    VersionHasNoNul(v1);
    VersionHasNoNul(v2);
    LastField(p1, VersionPart(v1), p2, VersionPart(v2));
    VersionIsInjective(v1, v2);
    FirstField(b1, k1, b2, k2);
  }

  /** The first NUL of a bucket name. */
  lemma {:induction false} FirstNul(b: string) returns (x: string, y: string)
    requires !NoNul(b)
    ensures NoNul(x) && b == x + [NUL] + y
    decreases |b|
  {
    if b[0] == NUL {
      x, y := "", b[1..];
      assert b == x + [NUL] + y;
    } else {
      assert !NoNul(b[1..]) by {
        var i :| 0 <= i < |b| && b[i] == NUL;
        assert b[1..][i - 1] == NUL;
      }
      var u, v := FirstNul(b[1..]);
      x, y := [b[0]] + u, v;
      assert b == [b[0]] + b[1..];
      assert b == x + [NUL] + y;
    }
  }

  /** A bucket name up to its NUL, with the rest in front of the object's key, gives the same key. */
  lemma NulMoves(x: string, y: string, key: string, version: Option<seq<Octet>>, size: nat)
    ensures ObjKey(x + [NUL] + y, key, version, size) == ObjKey(x, y + [NUL] + key, version, size)
  {
    assert (x + [NUL] + y) + [NUL] + key == x + [NUL] + (y + [NUL] + key);
  }

  /** The object shares its key with no other object of a bucket whose name has no NUL. */
  ghost predicate Alone(bucket: string, key: string, version: Option<seq<Octet>>, size: nat) {
    forall b: string, k: string, v: Option<seq<Octet>>, n: nat ::
      NoNul(b) && ObjKey(b, k, v, n) == ObjKey(bucket, key, version, size) ==>
      b == bucket && k == key && v == version && n == size
  }

  /** Any bucket name with NUL in it makes every one of its objects collide, and no other does. */
  lemma CollidesIff(bucket: string, key: string, version: Option<seq<Octet>>, size: nat)
    ensures NoNul(bucket) <==> Alone(bucket, key, version, size)
  {
    if NoNul(bucket) {
      forall b: string, k: string, v: Option<seq<Octet>>, n: nat
        | NoNul(b) && ObjKey(b, k, v, n) == ObjKey(bucket, key, version, size)
        ensures b == bucket && k == key && v == version && n == size
      {
        ObjKeyIsInjective(b, k, v, n, bucket, key, version, size);
      }
    } else {
      var x, y := FirstNul(bucket);
      NulMoves(x, y, key, version, size);
      assert |x| < |bucket|;
    }
  }

  // ---------- index, order and slots ----------

  ghost predicate NoRepeats(s: seq<nat>) {
    forall i, j :: 0 <= i < j < |s| ==> s[i] != s[j]
  }

  /** The slots in `order` are exactly the occupied ones. */
  ghost predicate OrderOk(order: seq<nat>, slots: seq<Option<Slot>>) {
    && NoRepeats(order) && Listed(order, slots)
    && forall x :: 0 <= x < |slots| && slots[x].Some? ==> x in order
  }

  ghost predicate Listed(order: seq<nat>, slots: seq<Option<Slot>>) {
    forall i :: 0 <= i < |order| ==> order[i] < |slots| && slots[order[i]].Some?
  }

  /** The slots in `free` are exactly the empty ones. */
  ghost predicate FreeOk(free: seq<nat>, slots: seq<Option<Slot>>) {
    && NoRepeats(free)
    && (forall i :: 0 <= i < |free| ==> free[i] < |slots| && slots[free[i]].None?)
    && forall x :: 0 <= x < |slots| && slots[x].None? ==> x in free
  }

  /** The index maps the key of each occupied slot to it, and nothing else. Keys carry the right size. */
  ghost predicate IndexOk(keys: map<Key, nat>, slots: seq<Option<Slot>>) {
    && (forall x :: 0 <= x < |slots| && slots[x].Some? ==>
        slots[x].value.key in keys && keys[slots[x].value.key] == x)
    && (forall k :: k in keys ==> keys[k] < |slots| && slots[keys[k]].Some? && slots[keys[k]].value.key == k)
    && forall x :: 0 <= x < |slots| && slots[x].Some? ==> Sized(slots[x].value.key, |slots[x].value.bytes|)
  }

  ghost predicate Consistent(keys: map<Key, nat>, order: seq<nat>, slots: seq<Option<Slot>>, free: seq<nat>) {
    OrderOk(order, slots) && FreeOk(free, slots) && IndexOk(keys, slots) && |order| + |free| == |slots|
  }

  /** The entries in access order: what the cache means. */
  function Entries(order: seq<nat>, slots: seq<Option<Slot>>): (r: seq<Slot>)
    requires Listed(order, slots)
    ensures |r| == |order| && forall i :: 0 <= i < |r| ==> r[i] == slots[order[i]].value
  {
    seq(|order|, i requires 0 <= i < |order| => slots[order[i]].value)
  }

  // Taking the front entry out.

  lemma FrontOrder(order: seq<nat>, slots: seq<Option<Slot>>)
    requires OrderOk(order, slots) && order != []
    ensures OrderOk(order[1..], slots[order[0] := None])
    ensures Entries(order[1..], slots[order[0] := None]) == Entries(order, slots)[1..]
  {
    assert order == [order[0]] + order[1..];
  }

  lemma FrontFree(free: seq<nat>, slots: seq<Option<Slot>>, v: nat)
    requires FreeOk(free, slots) && v < |slots| && slots[v].Some?
    ensures FreeOk(free + [v], slots[v := None])
  {
    assert forall x :: x in free + [v] <==> x in free || x == v;
  }

  lemma FrontIndex(keys: map<Key, nat>, slots: seq<Option<Slot>>, v: nat)
    requires IndexOk(keys, slots) && v < |slots| && slots[v].Some?
    ensures IndexOk(keys - {slots[v].value.key}, slots[v := None])
  {
  }

  /** The front entry's slot becomes the last free one. */
  lemma FrontRemoved(keys: map<Key, nat>, order: seq<nat>, slots: seq<Option<Slot>>, free: seq<nat>)
    requires Consistent(keys, order, slots, free) && order != []
    ensures var v := order[0]; var gone := slots[v := None];
      && Consistent(keys - {slots[v].value.key}, order[1..], gone, free + [v])
      && Entries(order[1..], gone) == Entries(order, slots)[1..]
  {
    FrontOrder(order, slots);
    FrontFree(free, slots, order[0]);
    FrontIndex(keys, slots, order[0]);
  }

  // Putting an entry with a new key into a free slot.

  lemma FillOrder(order: seq<nat>, slots: seq<Option<Slot>>, x: nat, slot: Slot)
    requires OrderOk(order, slots) && x < |slots| && slots[x].None?
    ensures OrderOk(order + [x], slots[x := Some(slot)])
    ensures Entries(order + [x], slots[x := Some(slot)]) == Entries(order, slots) + [slot]
  {
    assert forall y :: y in order + [x] <==> y in order || y == x;
  }

  lemma FillFree(free: seq<nat>, slots: seq<Option<Slot>>, x: nat, slot: Slot)
    requires FreeOk(free + [x], slots)
    ensures x < |slots| && slots[x].None? && FreeOk(free, slots[x := Some(slot)])
  {
    var all := free + [x];
    assert all[|free|] == x;
    assert forall i :: 0 <= i < |free| ==> all[i] == free[i];
    assert forall y :: y in all <==> y in free || y == x;
  }

  lemma FillIndex(keys: map<Key, nat>, slots: seq<Option<Slot>>, x: nat, slot: Slot)
    requires IndexOk(keys, slots) && x < |slots| && slots[x].None? && slot.key !in keys && Sized(slot.key, |slot.bytes|)
    ensures IndexOk(keys[slot.key := x], slots[x := Some(slot)])
  {
  }

  lemma SlotFilled(keys: map<Key, nat>, order: seq<nat>, slots: seq<Option<Slot>>, free: seq<nat>, x: nat, slot: Slot)
    requires Consistent(keys, order, slots, free + [x]) && slot.key !in keys && Sized(slot.key, |slot.bytes|)
    ensures x < |slots|
    ensures var full := slots[x := Some(slot)];
      && Consistent(keys[slot.key := x], order + [x], full, free)
      && Entries(order + [x], full) == Entries(order, slots) + [slot]
      && Weight(Entries(order + [x], full)) == Weight(Entries(order, slots)) + |slot.bytes|
  {
    FillFree(free, slots, x, slot);
    FillOrder(order, slots, x, slot);
    FillIndex(keys, slots, x, slot);
    WeightAppend(Entries(order, slots), [slot]);
    assert Weight([slot]) == |slot.bytes| + Weight([]);
  }

  // Moving a slot to the back of the order, with bytes of the same length under the same key.

  /** Where entry `i` of the new order was before. */
  function Origin(p: nat, len: nat, i: nat): nat
    requires p < len && i < len
  {
    if i < p then i else if i == len - 1 then p else i + 1
  }

  lemma MovedAt(order: seq<nat>, p: nat)
    requires p < |order|
    ensures var moved := Without(order, p) + [order[p]];
      |moved| == |order| && forall i :: 0 <= i < |moved| ==> moved[i] == order[Origin(p, |order|, i)]
  {
  }

  lemma MovedMembers(order: seq<nat>, p: nat)
    requires p < |order|
    ensures forall y :: y in order ==> y in Without(order, p) + [order[p]]
  {
    assert order == order[..p] + [order[p]] + order[p + 1..];
  }

  lemma RearrangedOrder(order: seq<nat>, moved: seq<nat>, slots: seq<Option<Slot>>, p: nat, slot: Slot)
    requires OrderOk(order, slots) && p < |order| == |moved|
    requires forall i :: 0 <= i < |moved| ==> moved[i] == order[Origin(p, |order|, i)]
    requires forall y :: y in order ==> y in moved
    ensures OrderOk(moved, slots[order[p] := Some(slot)])
  {
  }

  lemma RearrangedEntries(order: seq<nat>, moved: seq<nat>, slots: seq<Option<Slot>>, p: nat, slot: Slot)
    requires NoRepeats(order) && Listed(order, slots) && p < |order| == |moved|
    requires forall i :: 0 <= i < |moved| ==> moved[i] == order[Origin(p, |order|, i)]
    requires Listed(moved, slots[order[p] := Some(slot)])
    ensures Entries(moved, slots[order[p] := Some(slot)]) == Without(Entries(order, slots), p) + [slot]
  {
    var r := Entries(moved, slots[order[p] := Some(slot)]);
    forall i | 0 <= i < |r| ensures r[i] == (Without(Entries(order, slots), p) + [slot])[i] {
      assert moved[i] == order[Origin(p, |order|, i)];
    }
  }

  lemma MoveOrder(order: seq<nat>, slots: seq<Option<Slot>>, p: nat, slot: Slot)
    requires OrderOk(order, slots) && p < |order|
    ensures OrderOk(Without(order, p) + [order[p]], slots[order[p] := Some(slot)])
    ensures Entries(Without(order, p) + [order[p]], slots[order[p] := Some(slot)]) ==
      Without(Entries(order, slots), p) + [slot]
  {
    var moved := Without(order, p) + [order[p]];
    MovedAt(order, p);
    MovedMembers(order, p);
    RearrangedOrder(order, moved, slots, p, slot);
    RearrangedEntries(order, moved, slots, p, slot);
  }

  lemma SlotMoved(keys: map<Key, nat>, order: seq<nat>, slots: seq<Option<Slot>>, free: seq<nat>, p: nat, slot: Slot)
    requires Consistent(keys, order, slots, free) && p < |order|
    requires slot.key == slots[order[p]].value.key && |slot.bytes| == |slots[order[p]].value.bytes|
    ensures var moved, changed := Without(order, p) + [order[p]], slots[order[p] := Some(slot)];
      && Consistent(keys, moved, changed, free)
      && Entries(moved, changed) == Without(Entries(order, slots), p) + [slot]
      && Weight(Entries(moved, changed)) == Weight(Entries(order, slots))
  {
    MoveOrder(order, slots, p, slot);
    WeightWithout(Entries(order, slots), p);
    WeightAppend(Without(Entries(order, slots), p), [slot]);
    assert Weight([slot]) == |slot.bytes| + Weight([]);
  }

  /** Looking a key up in the index and in the list of entries is the same. */
  lemma IndexFinds(keys: map<Key, nat>, order: seq<nat>, slots: seq<Option<Slot>>, k: Key)
    requires OrderOk(order, slots) && IndexOk(keys, slots)
    ensures k in keys <==> Find(Entries(order, slots), k).Some?
    ensures k in keys ==> keys[k] in order
  {
    var list := Entries(order, slots);
    if k in keys {
      var i :| 0 <= i < |order| && order[i] == keys[k];
      assert list[i].key == k;
    }
  }

  lemma IndexAt(keys: map<Key, nat>, order: seq<nat>, slots: seq<Option<Slot>>, p: nat)
    requires OrderOk(order, slots) && IndexOk(keys, slots) && p < |order|
    ensures Find(Entries(order, slots), slots[order[p]].value.key) == Some(p)
    ensures Entries(order, slots)[p] == slots[order[p]].value
  {
    var list := Entries(order, slots);
    forall i | 0 <= i < |order| && i != p ensures list[i].key != list[p].key {
      assert order[i] != order[p];
    }
  }

  /** The state behind the cache's lock. */
  datatype Inner = Inner(
    keys: map<Key, nat>, order: seq<nat>, slots: seq<Option<Slot>>, free: seq<nat>, totalBytes: nat)

  ghost predicate Shape(s: Inner) {
    && Consistent(s.keys, s.order, s.slots, s.free) && |s.slots| > 0
    && s.totalBytes == Weight(Entries(s.order, s.slots))
  }

  /** Like `Shape`, except that slot `x` has left the free list and is about to be used. */
  ghost predicate ShapeBut(s: Inner, x: nat) {
    Shape(s.(free := s.free + [x]))
  }

  ghost function ListOf(s: Inner): seq<Slot>
    requires Listed(s.order, s.slots)
  {
    Entries(s.order, s.slots)
  }

  function Emptied(s: Inner): Inner
    requires s.order != [] && s.order[0] < |s.slots| && s.slots[s.order[0]].Some?
    requires s.totalBytes >= |s.slots[s.order[0]].value.bytes|
  {
    var slot := s.slots[s.order[0]].value;
    Inner(s.keys - {slot.key}, s.order[1..], s.slots[s.order[0] := None], s.free, s.totalBytes - |slot.bytes|)
  }

  lemma EmptiedShape(s: Inner)
    requires Shape(s) && s.order != []
    ensures s.totalBytes >= |s.slots[s.order[0]].value.bytes|
    ensures ShapeBut(Emptied(s), s.order[0]) && ListOf(Emptied(s)) == ListOf(s)[1..]
  {
    FrontRemoved(s.keys, s.order, s.slots, s.free);
  }

  function Filled(s: Inner, x: nat, slot: Slot): Inner
    requires x < |s.slots|
  {
    Inner(s.keys[slot.key := x], s.order + [x], s.slots[x := Some(slot)], s.free, s.totalBytes + |slot.bytes|)
  }

  lemma FilledShape(s: Inner, x: nat, slot: Slot)
    requires ShapeBut(s, x) && Find(ListOf(s), slot.key).None? && Sized(slot.key, |slot.bytes|)
    ensures x < |s.slots|
    ensures Shape(Filled(s, x, slot)) && ListOf(Filled(s, x, slot)) == ListOf(s) + [slot]
  {
    IndexFinds(s.keys, s.order, s.slots, slot.key);
    SlotFilled(s.keys, s.order, s.slots, s.free, x, slot);
  }

  function Renewed(s: Inner, p: nat, bytes: seq<Byte>): Inner
    requires p < |s.order| && s.order[p] < |s.slots| && s.slots[s.order[p]].Some?
  {
    var x := s.order[p];
    s.(order := Without(s.order, p) + [x], slots := s.slots[x := Some(s.slots[x].value.(bytes := bytes))])
  }

  lemma RenewedShape(s: Inner, p: nat, bytes: seq<Byte>)
    requires Shape(s) && p < |s.order| && |bytes| == |s.slots[s.order[p]].value.bytes|
    ensures var k := s.slots[s.order[p]].value.key;
      && Shape(Renewed(s, p, bytes)) && Find(ListOf(s), k) == Some(p)
      && ListOf(s)[p] == s.slots[s.order[p]].value
      && ListOf(Renewed(s, p, bytes)) == Without(ListOf(s), p) + [Slot(k, bytes)]
  {
    IndexAt(s.keys, s.order, s.slots, p);
    SlotMoved(s.keys, s.order, s.slots, s.free, p, s.slots[s.order[p]].value.(bytes := bytes));
  }

  lemma InitialShape(cap: nat)
    requires cap > 0
    ensures Shape(Inner(map[], [], seq(cap, _ => None), seq(cap, i requires 0 <= i < cap => i), 0))
  {
    var all := seq(cap, i requires 0 <= i < cap => i);
    forall x | 0 <= x < cap ensures x in all {
      assert all[x] == x;
    }
  }

  class ObjectCache {
    var inner: Inner
    const maxBytes: nat
    const maxObjectSize: nat

    ghost predicate Valid()
      reads this
    {
      Shape(inner) && inner.totalBytes <= maxBytes
    }

    ghost function List(): seq<Slot>
      reads this
      requires Shape(inner)
    {
      ListOf(inner)
    }

    function Capacity(): nat
      reads this
    {
      |inner.slots|
    }

    constructor (maxBytes: nat, maxObjectSize: nat)
      ensures Valid() && List() == [] && this.maxBytes == maxBytes && this.maxObjectSize == maxObjectSize
      ensures 16 <= Capacity() <= 1048576
    {
      var cap := maxBytes / 4096;
      cap := if cap < 16 then 16 else if cap > 1048576 then 1048576 else cap;
      InitialShape(cap);
      inner := Inner(map[], [], seq(cap, _ => None), seq(cap, i requires 0 <= i < cap => i), 0);
      this.maxBytes, this.maxObjectSize := maxBytes, maxObjectSize;
    }

    /** `order.iter().position(|&i| i == idx)`. */
    static method Position(order: seq<nat>, idx: nat) returns (p: nat)
      requires idx in order
      ensures p < |order| && order[p] == idx
    {
      p := 0;
      while order[p] != idx
        invariant p < |order| && idx in order[p..]
        decreases |order| - p
      {
        assert order[p..] == [order[p]] + order[p + 1..];
        p := p + 1;
      }
    }

    /** Makes the slot at position `p` the most recent, with new bytes of the same length. */
    method Renew(p: nat, bytes: seq<Byte>)
      requires Valid() && p < |inner.order| && |bytes| == |inner.slots[inner.order[p]].value.bytes|
      modifies this
      ensures inner == Renewed(old(inner), p, bytes)
    {
      var idx := inner.order[p];
      var slot := inner.slots[idx].value;
      inner := inner.(slots := inner.slots[idx := Some(slot.(bytes := bytes))]);
      inner := inner.(order := inner.order[..p] + inner.order[p + 1..]);
      inner := inner.(order := inner.order + [idx]);
    }

    method Get(bucket: string, key: string, version: Option<seq<Octet>>, size: nat) returns (r: Option<seq<Byte>>)
      requires Valid()
      modifies this
      ensures Valid() && Capacity() == old(Capacity())
      ensures List() == Touch(old(List()), ObjKey(bucket, key, version, size))
      ensures r == match Find(old(List()), ObjKey(bucket, key, version, size))
        case None => None
        case Some(i) => Some(old(List())[i].bytes)
      ensures r.Some? ==> |r.value| == size
    {
      var k := ObjKey(bucket, key, version, size);
      IndexFinds(inner.keys, inner.order, inner.slots, k);
      if k !in inner.keys {
        return None;
      }
      var idx := inner.keys[k];
      var bytes := inner.slots[idx].value.bytes;
      ObjKeyIsSized(bucket, key, version, size);
      SizeIsUnique(k, |bytes|, size);
      var p := Position(inner.order, idx);
      RenewedShape(inner, p, bytes);
      Renew(p, bytes);
      r := Some(bytes);
    }

    /** Pops the least recently used entry; its slot is the caller's to reuse or to free. */
    method EvictFront() returns (victim: nat)
      requires Shape(inner) && inner.order != []
      modifies this
      ensures victim == old(inner).order[0] && old(inner).totalBytes >= |old(inner).slots[victim].value.bytes|
      ensures inner == Emptied(old(inner))
    {
      EmptiedShape(inner);
      victim := inner.order[0];
      inner := inner.(order := inner.order[1..]);
      var slot := inner.slots[victim].value;
      inner := inner.(slots := inner.slots[victim := None]);
      inner := inner.(keys := inner.keys - {slot.key});
      inner := inner.(totalBytes := inner.totalBytes - |slot.bytes|);
    }

    /** A slot for a new entry: a free one, or else that of the least recently used entry. */
    method TakeSlot() returns (idx: nat)
      requires Shape(inner)
      modifies this
      ensures Capacity() == old(Capacity()) && ShapeBut(inner, idx)
      ensures ListOf(inner) == if |old(List())| >= Capacity() then old(List())[1..] else old(List())
    {
      ghost var before := inner;
      if inner.free != [] {
        idx := inner.free[|inner.free| - 1];
        inner := inner.(free := inner.free[..|inner.free| - 1]);
        assert inner.(free := inner.free + [idx]) == before;
      } else {
        EmptiedShape(inner);
        idx := EvictFront();
      }
    }

    method EvictToFit()
      requires Shape(inner)
      modifies this
      ensures Shape(inner) && Capacity() == old(Capacity())
      ensures List() == Evict(old(List()), maxBytes)
    {
      while inner.totalBytes > maxBytes && inner.order != []
        invariant Shape(inner) && Capacity() == old(Capacity())
        invariant Evict(List(), maxBytes) == Evict(old(List()), maxBytes)
        decreases |inner.order|
      {
        EmptiedShape(inner);
        var victim := EvictFront();
        inner := inner.(free := inner.free + [victim]);
      }
    }

    method InsertNew(k: Key, bytes: seq<Byte>)
      requires Valid() && Find(List(), k).None? && Sized(k, |bytes|) && |bytes| <= maxBytes
      modifies this
      ensures Valid() && Capacity() == old(Capacity())
      ensures List() == Put(old(List()), Capacity(), maxBytes, Slot(k, bytes))
    {
      var slot := Slot(k, bytes);
      var idx := TakeSlot();
      FilledShape(inner, idx, slot);
      inner := inner.(slots := inner.slots[idx := Some(slot)]);
      inner := inner.(keys := inner.keys[k := idx]);
      inner := inner.(order := inner.order + [idx]);
      inner := inner.(totalBytes := inner.totalBytes + |bytes|);
      EvictKeepsLast(List(), maxBytes);
      EvictToFit();
    }

    method Insert(bucket: string, key: string, version: Option<seq<Octet>>, bytes: seq<Byte>)
      requires Valid()
      modifies this
      ensures Valid() && Capacity() == old(Capacity())
      ensures var k := ObjKey(bucket, key, version, |bytes|);
        List() == if bytes == [] || |bytes| > maxObjectSize || |bytes| > maxBytes then old(List())
                  else Put(old(List()), Capacity(), maxBytes, Slot(k, bytes))
    {
      if bytes == [] || |bytes| > maxObjectSize || |bytes| > maxBytes {
        return;
      }
      var k := ObjKey(bucket, key, version, |bytes|);
      ObjKeyIsSized(bucket, key, version, |bytes|);
      IndexFinds(inner.keys, inner.order, inner.slots, k);
      if k in inner.keys {
        var idx := inner.keys[k];
        SizeIsUnique(k, |inner.slots[idx].value.bytes|, |bytes|);
        var p := Position(inner.order, idx);
        RenewedShape(inner, p, bytes);
        Renew(p, bytes);
        return;
      }
      InsertNew(k, bytes);
    }
  }
}
