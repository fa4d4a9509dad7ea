/** The specification of the hot-object cache: a list of entries, least recently used first. */
module Recency {
  import opened Words

  type Key = string

  datatype Slot = Slot(key: Key, bytes: seq<Byte>)

  function KeysOf(list: seq<Slot>): (r: seq<Key>)
    ensures |r| == |list| && forall i :: 0 <= i < |r| ==> r[i] == list[i].key
  {
    seq(|list|, i requires 0 <= i < |list| => list[i].key)
  }

  function Weight(list: seq<Slot>): nat {
    if list == [] then 0 else |list[0].bytes| + Weight(list[1..])
  }

  ghost predicate DistinctKeys(list: seq<Slot>) {
    forall i, j :: 0 <= i < j < |list| ==> list[i].key != list[j].key
  }

  function Without<T>(s: seq<T>, i: nat): seq<T>
    requires i < |s|
  {
    s[..i] + s[i + 1..]
  }

  function Find(list: seq<Slot>, k: Key): (r: Option<nat>)
    ensures r.Some? ==> r.value < |list| && list[r.value].key == k
    ensures r.None? ==> forall i :: 0 <= i < |list| ==> list[i].key != k
  {
    if list == [] then None
    else if list[0].key == k then Some(0)
    else match Find(list[1..], k)
      case None => None
      case Some(i) => Some(i + 1)
  }

  /** A hit makes its entry the most recent one. */
  function Touch(list: seq<Slot>, k: Key): seq<Slot> {
    match Find(list, k)
    case None => list
    case Some(i) => Without(list, i) + [list[i]]
  }

  /** Drops least recently used entries until the rest fits. */
  function Evict(list: seq<Slot>, maxBytes: nat): seq<Slot>
    decreases |list|
  {
    if list == [] || Weight(list) <= maxBytes then list else Evict(list[1..], maxBytes)
  }

  /** An insertion into a cache of `cap` slots and `maxBytes` bytes. */
  function Put(list: seq<Slot>, cap: nat, maxBytes: nat, slot: Slot): seq<Slot> {
    match Find(list, slot.key)
    case Some(i) => Without(list, i) + [slot]
    case None => Evict((if |list| >= cap && list != [] then list[1..] else list) + [slot], maxBytes)
  }

  // ---------- weights ----------

  lemma {:induction false} WeightAppend(a: seq<Slot>, b: seq<Slot>)
    ensures Weight(a + b) == Weight(a) + Weight(b)
  {
    if a == [] {
      assert a + b == b;
    } else {
      assert (a + b)[1..] == a[1..] + b;
      WeightAppend(a[1..], b);
    }
  }

  lemma WeightWithout(list: seq<Slot>, i: nat)
    requires i < |list|
    ensures Weight(Without(list, i)) == Weight(list) - |list[i].bytes|
  {
    assert list == list[..i] + ([list[i]] + list[i + 1..]);
    WeightAppend(list[..i], [list[i]] + list[i + 1..]);
    WeightAppend([list[i]], list[i + 1..]);
    WeightAppend(list[..i], list[i + 1..]);
  }

  /** An entry that fits on its own survives the eviction that it causes, and the rest then fits too. */
  lemma {:induction false} EvictKeepsLast(list: seq<Slot>, maxBytes: nat)
    requires list != [] && |list[|list| - 1].bytes| <= maxBytes
    ensures var r := Evict(list, maxBytes);
      r != [] && r[|r| - 1] == list[|list| - 1] && Weight(r) <= maxBytes
    decreases |list|
  {
    if Weight(list) > maxBytes {
      assert |list| == 1 ==> Weight(list) == |list[0].bytes| + Weight([]);
      EvictKeepsLast(list[1..], maxBytes);
    }
  }

  lemma {:induction false} EvictIsSuffix(list: seq<Slot>, maxBytes: nat) returns (n: nat)
    ensures n <= |list| && Evict(list, maxBytes) == list[n..]
    decreases |list|
  {
    n := 0;
    if list != [] && Weight(list) > maxBytes {
      n := EvictIsSuffix(list[1..], maxBytes);
      n := n + 1;
      assert list[1..][n - 1..] == list[n..];
    }
  }

  /** No more entries go than must. */
  lemma {:induction false} EvictsNoMore(list: seq<Slot>, maxBytes: nat) returns (n: nat)
    ensures n <= |list| && Evict(list, maxBytes) == list[n..]
    ensures forall m :: 0 <= m < n ==> Weight(list[m..]) > maxBytes
    ensures n < |list| ==> Weight(list[n..]) <= maxBytes
    decreases |list|
  {
    n := 0;
    if list != [] && Weight(list) > maxBytes {
      var k := EvictsNoMore(list[1..], maxBytes);
      n := k + 1;
      assert list[1..][k..] == list[n..];
      forall m | 0 <= m < n ensures Weight(list[m..]) > maxBytes {
        if m == 0 {
          assert list[0..] == list;
        } else {
          assert list[1..][m - 1..] == list[m..];
        }
      }
    } else {
      assert list[0..] == list;
    }
  }

  // ---------- histories ----------

  datatype Op = GetOp(key: Key) | PutOp(slot: Slot)

  /** The cache, and the keys that were really used: hits and insertions, oldest first. */
  datatype State = State(list: seq<Slot>, used: seq<Key>)

  /** Insertions of nothing, or of more than the cache may hold, are ignored. */
  predicate Accepted(op: Op, maxBytes: nat) {
    op.GetOp? || 0 < |op.slot.bytes| <= maxBytes
  }

  function Next(s: State, op: Op, cap: nat, maxBytes: nat): State {
    if !Accepted(op, maxBytes) then s
    else match op
      case GetOp(k) => if Find(s.list, k).None? then s else State(Touch(s.list, k), s.used + [k])
      case PutOp(slot) => State(Put(s.list, cap, maxBytes, slot), s.used + [slot.key])
  }

  function After(ops: seq<Op>, cap: nat, maxBytes: nat): State {
    if ops == [] then State([], [])
    else Next(After(ops[..|ops| - 1], cap, maxBytes), ops[|ops| - 1], cap, maxBytes)
  }

  /** What fits is the most recent entry from then on; anything else is ignored. A key that was not cached
      costs the oldest entry when all slots are taken, and as many as must go for the bytes. */
  lemma PutIsCached(s: State, slot: Slot, cap: nat, maxBytes: nat)
    ensures var r := Next(s, PutOp(slot), cap, maxBytes);
      if slot.bytes == [] || |slot.bytes| > maxBytes then r == s
      else r.list != [] && r.list[|r.list| - 1] == slot && r.used == s.used + [slot.key]
  {
    if 0 < |slot.bytes| <= maxBytes && Find(s.list, slot.key).None? {
      EvictKeepsLast((if |s.list| >= cap && s.list != [] then s.list[1..] else s.list) + [slot], maxBytes);
    }
  }

  /** Every key once, ordered by its last use. */
  function Ranking(used: seq<Key>): seq<Key> {
    if used == [] then [] else
      Unlisted(Ranking(used[..|used| - 1]), used[|used| - 1]) + [used[|used| - 1]]
  }

  function Unlisted(ks: seq<Key>, k: Key): seq<Key> {
    if ks == [] then [] else if ks[0] == k then ks[1..] else [ks[0]] + Unlisted(ks[1..], k)
  }

  ghost predicate IsSuffix(part: seq<Key>, whole: seq<Key>) {
    |part| <= |whole| && whole[|whole| - |part|..] == part
  }

  ghost predicate Distinct(ks: seq<Key>) {
    forall i, j :: 0 <= i < j < |ks| ==> ks[i] != ks[j]
  }

  lemma UnlistedHolds(ks: seq<Key>, k: Key)
    requires Distinct(ks)
    ensures Distinct(Unlisted(ks, k)) && k !in Unlisted(ks, k)
  {
    if k in ks {
      var i :| 0 <= i < |ks| && ks[i] == k;
      UnlistedAt(ks, i);
    } else {
      UnlistedAbsent(ks, k);
    }
  }

  lemma {:induction false} RankingIsDistinct(used: seq<Key>)
    ensures Distinct(Ranking(used))
  {
    if used != [] {
      RankingIsDistinct(used[..|used| - 1]);
      UnlistedHolds(Ranking(used[..|used| - 1]), used[|used| - 1]);
    }
  }

  lemma WithoutSplit(a: seq<Key>, b: seq<Key>, i: nat)
    requires i < |a + b|
    ensures Without(a + b, i) == if i < |a| then Without(a, i) + b else a + Without(b, i - |a|)
  {
  }

  lemma UnlistedSplit(a: seq<Key>, b: seq<Key>, k: Key)
    requires Distinct(a + b)
    ensures Unlisted(a + b, k) == if k in b then a + Unlisted(b, k) else Unlisted(a, k) + b
  {
    PartsDistinct(a, b);
    if k in b {
      var i :| 0 <= i < |b| && b[i] == k;
      UnlistedAt(b, i);
      UnlistedAt(a + b, |a| + i);
      WithoutSplit(a, b, |a| + i);
    } else if k in a {
      var i :| 0 <= i < |a| && a[i] == k;
      UnlistedAt(a, i);
      UnlistedAt(a + b, i);
      WithoutSplit(a, b, i);
    } else {
      UnlistedAbsent(a, k);
      UnlistedAbsent(a + b, k);
    }
  }

  lemma PartsDistinct(a: seq<Key>, b: seq<Key>)
    requires Distinct(a + b)
    ensures Distinct(a) && Distinct(b)
  {
    assert forall i :: 0 <= i < |a| ==> (a + b)[i] == a[i];
    assert forall i :: 0 <= i < |b| ==> (a + b)[|a| + i] == b[i];
  }

  lemma {:induction false} UnlistedAbsent(ks: seq<Key>, k: Key)
    requires k !in ks
    ensures Unlisted(ks, k) == ks
  {
    if ks != [] {
      UnlistedAbsent(ks[1..], k);
    }
  }

  lemma {:induction false} UnlistedAt(ks: seq<Key>, i: nat)
    requires Distinct(ks) && i < |ks|
    ensures Unlisted(ks, ks[i]) == Without(ks, i)
  {
    if i > 0 {
      UnlistedAt(ks[1..], i - 1);
    }
  }

  lemma UsedLast(used: seq<Key>, k: Key)
    ensures Ranking(used + [k]) == Unlisted(Ranking(used), k) + [k]
  {
    assert (used + [k])[..|used + [k]| - 1] == used;
  }

  /** Using a key moves it to the end of any suffix of the ranking that the cache may hold. */
  lemma UseKeepsSuffix(part: seq<Key>, used: seq<Key>, k: Key)
    requires IsSuffix(part, Ranking(used))
    ensures IsSuffix(Unlisted(part, k) + [k], Ranking(used + [k]))
  {
    var r := Ranking(used);
    var front := r[..|r| - |part|];
    RankingIsDistinct(used);
    assert front + part == r;
    UnlistedSplit(front, part, k);
    UsedLast(used, k);
    if k !in part {
      UnlistedAbsent(part, k);
      AppendSuffix(Unlisted(front, k), part, k);
    } else {
      AppendSuffix(front, Unlisted(part, k), k);
    }
  }

  lemma AppendSuffix(front: seq<Key>, part: seq<Key>, k: Key)
    ensures IsSuffix(part + [k], front + part + [k])
  {
    var whole := front + part + [k];
    assert whole == front + (part + [k]);
  }

  lemma SuffixOfSuffix(a: seq<Key>, b: seq<Key>, n: nat)
    requires IsSuffix(a, b) && n <= |a|
    ensures IsSuffix(a[n..], b)
  {
  }

  lemma SuffixIsDistinct(a: seq<Key>, b: seq<Key>)
    requires IsSuffix(a, b) && Distinct(b)
    ensures Distinct(a)
  {
    assert forall i :: 0 <= i < |a| ==> a[i] == b[|b| - |a| + i];
  }

  lemma TouchedKeys(list: seq<Slot>, i: nat, slot: Slot)
    requires Distinct(KeysOf(list)) && i < |list| && slot.key == list[i].key
    ensures KeysOf(Without(list, i) + [slot]) == Unlisted(KeysOf(list), slot.key) + [slot.key]
  {
    var ks, rest := KeysOf(list), Without(list, i);
    UnlistedAt(ks, i);
    assert KeysOf(rest) == Without(ks, i);
    assert KeysOf(rest + [slot]) == KeysOf(rest) + [slot.key];
  }

  lemma NextIsMostRecent(s: State, op: Op, cap: nat, maxBytes: nat)
    requires IsSuffix(KeysOf(s.list), Ranking(s.used))
    ensures var r := Next(s, op, cap, maxBytes); IsSuffix(KeysOf(r.list), Ranking(r.used))
  {
    RankingIsDistinct(s.used);
    SuffixIsDistinct(KeysOf(s.list), Ranking(s.used));
    if Accepted(op, maxBytes) {
      var k := if op.GetOp? then op.key else op.slot.key;
      UseKeepsSuffix(KeysOf(s.list), s.used, k);
      match Find(s.list, k)
      case Some(i) => TouchedKeys(s.list, i, if op.GetOp? then s.list[i] else op.slot);
      case None =>
        if op.PutOp? {
          PutNewKeys(s.list, cap, maxBytes, op.slot, Ranking(s.used + [k]));
        }
    }
  }

  lemma PutNewKeys(list: seq<Slot>, cap: nat, maxBytes: nat, slot: Slot, ranking: seq<Key>)
    requires Find(list, slot.key).None? && IsSuffix(Unlisted(KeysOf(list), slot.key) + [slot.key], ranking)
    ensures IsSuffix(KeysOf(Put(list, cap, maxBytes, slot)), ranking)
  {
    UnlistedAbsent(KeysOf(list), slot.key);
    var drop := if |list| >= cap && list != [] then 1 else 0;
    var before := list[drop..] + [slot];
    var n := EvictIsSuffix(before, maxBytes);
    assert before[n..] == (list + [slot])[drop + n..];
    assert KeysOf(list + [slot]) == KeysOf(list) + [slot.key];
    assert KeysOf((list + [slot])[drop + n..]) == KeysOf(list + [slot])[drop + n..];
    SuffixOfSuffix(KeysOf(list) + [slot.key], ranking, drop + n);
  }

  /** At any time the cache holds precisely the most recently used keys, in the order of their last
      use; so what is evicted is always the least recently used. */
  lemma {:induction false} HoldsMostRecent(ops: seq<Op>, cap: nat, maxBytes: nat)
    ensures var s := After(ops, cap, maxBytes); IsSuffix(KeysOf(s.list), Ranking(s.used))
  {
    if ops != [] {
      HoldsMostRecent(ops[..|ops| - 1], cap, maxBytes);
      NextIsMostRecent(After(ops[..|ops| - 1], cap, maxBytes), ops[|ops| - 1], cap, maxBytes);
    }
  }

  /** The bytes of the last accepted insertion under `k`. */
  function LastPut(ops: seq<Op>, k: Key, maxBytes: nat): Option<seq<Byte>> {
    if ops == [] then None else
      var op := ops[|ops| - 1];
      if op.PutOp? && op.slot.key == k && Accepted(op, maxBytes) then Some(op.slot.bytes)
      else LastPut(ops[..|ops| - 1], k, maxBytes)
  }

  /** Every entry is the last insertion under its key. */
  lemma {:induction false} HitIsLastPut(ops: seq<Op>, cap: nat, maxBytes: nat, i: nat)
    requires i < |After(ops, cap, maxBytes).list|
    ensures var e := After(ops, cap, maxBytes).list[i]; LastPut(ops, e.key, maxBytes) == Some(e.bytes)
  {
    var init, op := ops[..|ops| - 1], ops[|ops| - 1];
    var s, r := After(init, cap, maxBytes), After(ops, cap, maxBytes);
    HoldsMostRecent(init, cap, maxBytes);
    RankingIsDistinct(s.used);
    SuffixIsDistinct(KeysOf(s.list), Ranking(s.used));
    var e := r.list[i];
    if !(op.PutOp? && Accepted(op, maxBytes) && e.key == op.slot.key) {
      var j := CameFrom(s, op, cap, maxBytes, i);
      HitIsLastPut(init, cap, maxBytes, j);
    } else {
      PutIsFresh(s, op, cap, maxBytes, i);
    }
  }

  lemma MovedFrom(list: seq<Slot>, at: nat, last: Slot, i: nat) returns (j: nat)
    requires at < |list| && i < |list|
    ensures j < |list| && (i < |list| - 1 ==> (Without(list, at) + [last])[i] == list[j])
    ensures i == |list| - 1 ==> j == at && (Without(list, at) + [last])[i] == last
  {
    j := if i < at then i else if i == |list| - 1 then at else i + 1;
  }

  lemma KeptFrom(list: seq<Slot>, cap: nat, maxBytes: nat, slot: Slot, i: nat) returns (j: nat)
    requires Find(list, slot.key).None? && i < |Put(list, cap, maxBytes, slot)|
    requires Put(list, cap, maxBytes, slot)[i].key != slot.key
    ensures j < |list| && list[j] == Put(list, cap, maxBytes, slot)[i]
  {
    var drop := if |list| >= cap && list != [] then 1 else 0;
    var before := list[drop..] + [slot];
    var n := EvictIsSuffix(before, maxBytes);
    j := drop + n + i;
  }

  /** An entry other than the one just inserted was there before. */
  lemma CameFrom(s: State, op: Op, cap: nat, maxBytes: nat, i: nat) returns (j: nat)
    requires i < |Next(s, op, cap, maxBytes).list|
    requires !(op.PutOp? && Accepted(op, maxBytes) && Next(s, op, cap, maxBytes).list[i].key == op.slot.key)
    ensures j < |s.list| && s.list[j] == Next(s, op, cap, maxBytes).list[i]
  {
    j := i;
    if Accepted(op, maxBytes) {
      match Find(s.list, if op.GetOp? then op.key else op.slot.key)
      case Some(at) =>
        j := MovedFrom(s.list, at, if op.GetOp? then s.list[at] else op.slot, i);
      case None =>
        if op.PutOp? {
          j := KeptFrom(s.list, cap, maxBytes, op.slot, i);
        }
    }
  }

  /** The entry under the key just inserted holds the bytes just inserted. */
  lemma PutIsFresh(s: State, op: Op, cap: nat, maxBytes: nat, i: nat)
    requires Distinct(KeysOf(s.list)) && op.PutOp? && Accepted(op, maxBytes)
    requires i < |Next(s, op, cap, maxBytes).list| && Next(s, op, cap, maxBytes).list[i].key == op.slot.key
    ensures Next(s, op, cap, maxBytes).list[i] == op.slot
  {
    match Find(s.list, op.slot.key)
    case Some(at) =>
      assert forall j :: 0 <= j < |s.list| && j != at ==> KeysOf(s.list)[j] != KeysOf(s.list)[at];
      assert forall j :: 0 <= j < |s.list| && j != at ==> s.list[j].key != op.slot.key;
    case None =>
      var drop := if |s.list| >= cap && s.list != [] then 1 else 0;
      var before := s.list[drop..] + [op.slot];
      var n := EvictIsSuffix(before, maxBytes);
      assert forall j :: 0 <= j < |before| - 1 ==> before[j].key != op.slot.key;
  }
}
