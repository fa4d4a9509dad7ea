/** Rollback is an exact inverse.

    A draft is any sequence of allocate, note-in-flight, add, share and release calls. `Tracks`
    says how the current ledger and draft relate to the ledger in which the draft began; every
    call keeps it, and from it the undo is computed to restore that ledger. */
module Rollbacks {
  import opened Ledgers

  // ---------- sums over undo lists ----------

  function SumFor(deltas: seq<(nat, nat)>, e: nat): nat {
    if deltas == [] then 0
    else (if deltas[0].0 == e then deltas[0].1 else 0) + SumFor(deltas[1..], e)
  }

  function Count<T(==)>(xs: seq<T>, x: T): nat {
    if xs == [] then 0 else (if xs[0] == x then 1 else 0) + Count(xs[1..], x)
  }

  lemma {:induction false} SumForAppend(a: seq<(nat, nat)>, key: (nat, nat), e: nat)
    ensures SumFor(a + [key], e) == SumFor(a, e) + (if key.0 == e then key.1 else 0)
  {
    if a != [] {
      assert (a + [key])[1..] == a[1..] + [key];
      SumForAppend(a[1..], key, e);
    } else {
      assert (a + [key])[1..] == [];
    }
  }

  lemma {:induction false} CountAppend<T>(a: seq<T>, x: T, y: T)
    ensures Count(a + [x], y) == Count(a, y) + (if x == y then 1 else 0)
  {
    if a != [] {
      assert (a + [x])[1..] == a[1..] + [x];
      CountAppend(a[1..], x, y);
    } else {
      assert (a + [x])[1..] == [];
    }
  }

  lemma {:induction false} CountPositive<T>(xs: seq<T>, x: T)
    ensures Count(xs, x) > 0 <==> x in xs
  {
    if xs != [] {
      CountPositive(xs[1..], x);
    }
  }

  lemma {:induction false} ExpandAppend(a: seq<(nat, nat)>, b: seq<(nat, nat)>)
    ensures Expand(a + b) == Expand(a) + Expand(b)
  {
    if a == [] {
      assert a + b == b;
    } else {
      assert (a + b)[1..] == a[1..] + b;
      ExpandAppend(a[1..], b);
    }
  }

  // ---------- what the undo loops compute, extent by extent ----------

  lemma ModShift(x: int, y: int)
    ensures (x % U32 + y) % U32 == (x + y) % U32
  {
    var q := x / U32;
    assert x == q * U32 + x % U32;
    ModAddMultiple(x % U32 + y, q);
  }

  lemma ModAddMultiple(x: int, q: int)
    ensures (x + q * U32) % U32 == x % U32
  {
  }

  lemma ShiftShift(x: nat, y: nat, z: nat, up: bool)
    ensures Shift(Shift(x, y, up), z, up) == Shift(x, y + z, up)
  {
    if up {
      ModShift(x + y, z);
    } else {
      ModShift(x as int - y, 0 - z as int);
    }
  }

  lemma {:induction false} ShiftLiveAt(live: seq<nat>, deltas: seq<(nat, nat)>, up: bool, e: nat)
    requires KeysBelow(deltas, |live|)
    requires forall x :: 0 <= x < |live| ==> live[x] < U32
    requires e < |live|
    ensures ShiftLive(live, deltas, up)[e] == Shift(live[e], SumFor(deltas, e), up)
    decreases |deltas|
  {
    if deltas != [] {
      var (x, len) := deltas[0];
      ShiftLiveAt(live[x := Shift(live[x], len, up)], deltas[1..], up, e);
      ShiftShift(live[x], len, SumFor(deltas[1..], e), up);
    }
  }

  lemma {:induction false} ShiftRefsAt(refs: seq<nat>, ids: seq<nat>, up: bool, e: nat)
    requires Below(ids, |refs|)
    requires forall x :: 0 <= x < |refs| ==> refs[x] < U32
    requires e < |refs|
    ensures ShiftRefs(refs, ids, up)[e] == Shift(refs[e], Count(ids, e), up)
    decreases |ids|
  {
    if ids != [] {
      var x := ids[0];
      ShiftRefsAt(refs[x := Shift(refs[x], 1, up)], ids[1..], up, e);
      ShiftShift(refs[x], 1, Count(ids[1..], e), up);
    }
  }

  lemma {:induction false} UnallocateAt(s: Ledger, ids: seq<nat>)
    requires WellFormed(s) && Below(ids, |s.bits|)
    ensures var r := Unallocate(s, ids);
      && (forall e :: 0 <= e < |s.bits| ==> r.bits[e] == (s.bits[e] && e !in ids))
      && r.totalAlloc == s.totalAlloc - |ids|
      && r == s.(bits := r.bits, phase := r.phase, totalAlloc := r.totalAlloc)
    decreases |ids|
  {
    if ids != [] {
      var e := ids[0];
      UnallocateAt(s.(bits := s.bits[e := false], phase := s.phase[e := Free],
                      totalAlloc := s.totalAlloc - 1), ids[1..]);
    }
  }

  function SetBits(bits: seq<bool>): nat {
    if bits == [] then 0 else (if bits[0] then 1 else 0) + SetBits(bits[1..])
  }

  lemma {:induction false} SetBitsUpdate(bits: seq<bool>, e: nat, v: bool)
    requires e < |bits|
    ensures SetBits(bits[e := v]) == SetBits(bits) + (if v then 1 else 0) - (if bits[e] then 1 else 0)
  {
    if e == 0 {
      assert bits[e := v][1..] == bits[1..];
    } else {
      assert bits[e := v][1..] == bits[1..][e - 1 := v];
      SetBitsUpdate(bits[1..], e - 1, v);
    }
  }

  /** Settling a commit clears exactly the emptied, unpinned extents it was told about, and trades
      every cleared bit for one unit of `totalFree`. */
  lemma {:induction false} SettleAt(s: Ledger, cleared: seq<nat>)
    requires WellFormed(s) && Below(cleared, |s.bits|)
    ensures var r := Settle(s, cleared);
      && (forall e :: 0 <= e < |s.bits| ==>
            r.bits[e] == (s.bits[e] && !(e in cleared && s.live[e] == 0 && s.pins[e] == 0)))
      && r.totalFree + SetBits(r.bits) == s.totalFree + SetBits(s.bits)
      && (forall e :: e in r.isolated <==>
            e in s.isolated || (e in cleared && s.live[e] == 0 && s.pins[e] > 0))
      && r == s.(bits := r.bits, phase := r.phase, isolated := r.isolated, totalFree := r.totalFree)
    decreases |cleared|
  {
    if cleared != [] {
      SetBitsUpdate(s.bits, cleared[0], false);
      SettleAt(SettleOne(s, cleared[0]), cleared[1..]);
    }
  }

  lemma {:induction false} UnclearAt(s: Ledger, cleared: seq<nat>)
    requires WellFormed(s) && Below(cleared, |s.bits|)
    ensures var r := Unclear(s, cleared);
      && (forall e :: 0 <= e < |s.bits| ==> r.bits[e] == (s.bits[e] || e in cleared))
      && r.totalFree + SetBits(r.bits) == s.totalFree + SetBits(s.bits)
      && r == s.(bits := r.bits, totalFree := r.totalFree)
    decreases |cleared|
  {
    if cleared != [] {
      var e := cleared[0];
      SetBitsUpdate(s.bits, e, true);
      UnclearAt(if s.bits[e] then s else s.(bits := s.bits[e := true], totalFree := s.totalFree - 1),
                cleared[1..]);
    }
  }

  // ---------- the share table, key by key ----------

  /** The table entry of a key, 0 when there is none. */
  function Entry(m: map<Seg, nat>, k: Seg): nat {
    if k in m then m[k] else 0
  }

  /** How many holders an entry stands for: an entry of 1 means the same as no entry. */
  function Holding(entry: nat): nat {
    if entry == 0 then 1 else entry
  }

  /** The entry that the undo leaves, given the entry it finds and the number of undone shares
      and releases. */
  function UndoneEntry(entry: nat, shares: nat, releases: nat): nat {
    var afterShares := if shares == 0 || entry == 0 || entry >= shares + 2 then
                         (if entry == 0 then 0 else entry - shares) else 0;
    if afterShares == 0 then releases else afterShares + releases
  }

  lemma {:induction false} UnshareAt(m: map<Seg, nat>, keys: seq<Seg>, k: Seg)
    requires Positive(m)
    ensures Entry(Unshare(m, keys), k) == UndoneEntry(Entry(m, k), Count(keys, k), 0)
    decreases |keys|
  {
    if keys != [] {
      UnshareAt(UnshareOne(m, keys[0]), keys[1..], k);
    }
  }

  lemma {:induction false} ReshareAt(m: map<Seg, nat>, keys: seq<Seg>, k: Seg)
    requires Positive(m)
    ensures Entry(Reshare(m, keys), k) == Entry(m, k) + Count(keys, k)
    decreases |keys|
  {
    if keys != [] {
      ReshareAt(ReshareOne(m, keys[0]), keys[1..], k);
    }
  }

  lemma UndoShareAt(m: map<Seg, nat>, inc: seq<Seg>, dec: seq<Seg>, k: Seg)
    requires Positive(m)
    ensures Entry(Reshare(Unshare(m, inc), dec), k) == UndoneEntry(Entry(m, k), Count(inc, k), Count(dec, k))
  {
    UnshareAt(m, inc, k);
    ReshareAt(Unshare(m, inc), dec, k);
  }

  // ---------- the calls of a draft ----------

  datatype Call =
    | CallAllocate(ids: seq<nat>, skipped: set<nat>, ranges: seq<(nat, nat)>)
    | CallNoSpace(ids: seq<nat>, skipped: set<nat>)
    | CallNote(seg: Seg)
    | CallAdd(segs: seq<Seg>)
    | CallShare(segs: seq<Seg>)
    | CallRelease(segs: seq<Seg>)

  /** What a caller owes: data is only placed in allocated extents, and a zero-length release names
      an allocated extent. Releases may be stale: the segment need not be held by anybody. */
  ghost predicate Legal(t: Txn, c: Call) {
    match c
    case CallAllocate(ids, skipped, ranges) =>
      MayTake(t.led, ids, skipped) && multiset(Expand(ranges)) == multiset(ids)
    case CallNoSpace(ids, skipped) => MayTake(t.led, ids, skipped)
    case CallNote(seg) => seg.ext < |t.led.bits| && t.led.bits[seg.ext]
    case CallAdd(segs) => InRange(t.led, segs) && InAllocated(t.led, segs)
    case CallShare(segs) => InRange(t.led, segs) && InAllocated(t.led, segs)
    case CallRelease(segs) =>
      && InRange(t.led, segs)
      && forall i :: 0 <= i < |segs| ==> segs[i].len > 0 || t.led.bits[segs[i].ext]
  }

  ghost predicate InAllocated(s: Ledger, segs: seq<Seg>)
    requires InRange(s, segs)
  {
    forall i :: 0 <= i < |segs| ==> s.bits[segs[i].ext]
  }

  ghost function Do(t: Txn, c: Call): (r: Txn)
    requires WellFormed(t.led) && Legal(t, c)
    ensures WellFormed(r.led)
  {
    match c
    case CallAllocate(ids, skipped, ranges) => Allocate(t, ids, skipped, ranges)
    case CallNoSpace(ids, skipped) => AllocateNoSpace(t, ids, skipped)
    case CallNote(seg) => NoteInflight(t, seg)
    case CallAdd(segs) => AddObject(t, segs)
    case CallShare(segs) => ShareObject(t, segs)
    case CallRelease(segs) => ReleaseObject(t, segs)
  }

  ghost predicate LegalAll(t: Txn, calls: seq<Call>)
    requires WellFormed(t.led)
    decreases |calls|
  {
    calls == [] || (Legal(t, calls[0]) && LegalAll(Do(t, calls[0]), calls[1..]))
  }

  ghost function DoAll(t: Txn, calls: seq<Call>): (r: Txn)
    requires WellFormed(t.led) && LegalAll(t, calls)
    ensures WellFormed(r.led)
    decreases |calls|
  {
    if calls == [] then t else DoAll(Do(t, calls[0]), calls[1..])
  }

  // ---------- the invariant of a draft ----------

  /** The ledger between transactions: bytes and references only on allocated extents. */
  ghost predicate Sound(s: Ledger) {
    && WellFormed(s)
    && forall e :: 0 <= e < |s.bits| && !s.bits[e] ==> s.live[e] == 0 && s.refcounts[e] == 0
  }

  ghost predicate SameShape(s0: Ledger, t: Txn) {
    && WellFormed(s0) && WellFormed(t.led) && |t.led.bits| == |s0.bits|
    && t.led.pins == s0.pins
  }

  /** How one extent stands, given where it stood when the draft began. */
  ghost predicate ExtentTracks(s0: Ledger, t: Txn, e: nat) {
    && SameShape(s0, t) && e < |s0.bits|
    && CountersTrack(s0, t, e)
    && BitTracks(s0, t, e)
  }

  ghost predicate CountersTrack(s0: Ledger, t: Txn, e: nat)
    requires SameShape(s0, t) && e < |s0.bits|
  {
    && t.led.live[e] == (s0.live[e] + SumFor(t.draft.liveInc, e) - SumFor(t.draft.liveDec, e)) % U32
    && t.led.refcounts[e] ==
       (s0.refcounts[e] + Count(t.draft.refcountInc, e) - Count(t.draft.refcountDec, e)) % U32
  }

  ghost predicate CountersKept(s0: Ledger, t: Txn, e: nat) {
    SameShape(s0, t) && e < |s0.bits| && CountersTrack(s0, t, e)
  }

  ghost predicate BitTracks(s0: Ledger, t: Txn, e: nat)
    requires SameShape(s0, t) && e < |s0.bits|
  {
    && (!t.led.bits[e] ==> t.led.live[e] == 0 && t.led.refcounts[e] == 0)
    && (e in Ids(t.draft) ==> !s0.bits[e] && s0.pins[e] == 0)
    && (s0.pins[e] == 0 ==> t.led.bits[e] == (s0.bits[e] || e in Ids(t.draft)))
    && (s0.pins[e] > 0 && t.led.bits[e] != s0.bits[e] ==> t.led.bits[e] && e in t.led.isolated)
    && (e in t.draft.cleared ==> t.led.bits[e])
  }

  /** While a draft has only shared a key, or only released it, the entry is determined. */
  ghost predicate ShareTracks(s0: Ledger, t: Txn, k: Seg) {
    var was, now := Entry(s0.shared, k), Entry(t.led.shared, k);
    var shares, releases := Count(t.draft.sharedInc, k), Count(t.draft.sharedDec, k);
    && (shares == 0 && releases == 0 ==> now == was)
    && (releases == 0 && shares > 0 ==> now == Holding(was) + shares)
    && (shares == 0 ==> releases <= was && now == was - releases)
  }

  ghost predicate TotalsTrack(s0: Ledger, t: Txn) {
    && SameShape(s0, t)
    && DraftInRange(t.led, t.draft)
    && t.led.totalAlloc == s0.totalAlloc + |Ids(t.draft)|
    && t.led.totalFree == s0.totalFree
  }

  // ---------- every call keeps the extents' part ----------

  lemma GainLiveCounters(s0: Ledger, t: Txn, key: (nat, nat), e: nat)
    requires CountersKept(s0, t, e) && key.0 < |t.led.bits|
    ensures CountersKept(s0, GainLive(t, key), e)
  {
    SumForAppend(t.draft.liveInc, key, e);
    ModShift((s0.live[e] + SumFor(t.draft.liveInc, e)) as int - SumFor(t.draft.liveDec, e), key.1);
  }

  lemma GainLiveExtent(s0: Ledger, t: Txn, key: (nat, nat), e: nat)
    requires ExtentTracks(s0, t, e) && key.0 < |t.led.bits| && t.led.bits[key.0]
    ensures ExtentTracks(s0, GainLive(t, key), e)
  {
    GainLiveCounters(s0, t, key, e);
  }

  lemma {:induction false} AddSegsExtent(
    s0: Ledger, t: Txn, pre: multiset<(nat, nat)>, segs: seq<Seg>, e: nat)
    requires ExtentTracks(s0, t, e) && InRange(t.led, segs) && InAllocated(t.led, segs)
    ensures var r := AddSegs(t, pre, segs); ExtentTracks(s0, r, e) && r.led.bits == t.led.bits
    decreases |segs|
  {
    if segs != [] {
      var key := (segs[0].ext, segs[0].len);
      if key in pre {
        AddSegsExtent(s0, t, pre - multiset{key}, segs[1..], e);
      } else {
        GainLiveExtent(s0, t, key, e);
        AddSegsExtent(s0, GainLive(t, key), pre, segs[1..], e);
      }
    }
  }

  function RefUpOne(t: Txn, x: nat): (r: Txn)
    requires WellFormed(t.led) && x < |t.led.bits|
    ensures WellFormed(r.led) && r == RefUp(t, [x])
  {
    Txn(t.led.(refcounts := t.led.refcounts[x := (t.led.refcounts[x] + 1) % U32]),
        t.draft.(refcountInc := t.draft.refcountInc + [x]))
  }

  lemma RefUpOneCounters(s0: Ledger, t: Txn, x: nat, e: nat)
    requires CountersKept(s0, t, e) && x < |t.led.bits|
    ensures CountersKept(s0, RefUpOne(t, x), e)
  {
    CountAppend(t.draft.refcountInc, x, e);
    ModShift((s0.refcounts[e] + Count(t.draft.refcountInc, e)) as int - Count(t.draft.refcountDec, e), 1);
  }

  lemma RefUpOneExtent(s0: Ledger, t: Txn, x: nat, e: nat)
    requires ExtentTracks(s0, t, e) && x < |t.led.bits| && t.led.bits[x]
    ensures ExtentTracks(s0, RefUpOne(t, x), e)
  {
    RefUpOneCounters(s0, t, x, e);
  }

  lemma {:induction false} RefUpExtent(s0: Ledger, t: Txn, ids: seq<nat>, e: nat)
    requires ExtentTracks(s0, t, e)
    requires forall i :: 0 <= i < |ids| ==> ids[i] < |t.led.bits| && t.led.bits[ids[i]]
    ensures ExtentTracks(s0, RefUp(t, ids), e)
    decreases |ids|
  {
    if ids != [] {
      RefUpOneExtent(s0, t, ids[0], e);
      RefUpExtent(s0, RefUpOne(t, ids[0]), ids[1..], e);
    }
  }

  lemma {:induction false} SeenFrom(segs: seq<Seg>, acc: seq<nat>)
    ensures forall e :: e in Seen(segs, acc) <==> e in acc || exists i :: 0 <= i < |segs| && segs[i].ext == e
    ensures Distinct(acc) ==> Distinct(Seen(segs, acc))
    decreases |segs|
  {
    if segs != [] {
      var acc' := if segs[0].ext in acc then acc else acc + [segs[0].ext];
      SeenFrom(segs[1..], acc');
      forall e ensures e in Seen(segs, acc) <==> e in acc || exists i :: 0 <= i < |segs| && segs[i].ext == e {
        if exists i :: 0 <= i < |segs| && segs[i].ext == e {
          var i :| 0 <= i < |segs| && segs[i].ext == e;
          if i > 0 { assert segs[1..][i - 1].ext == e; }
        }
        if exists i :: 0 <= i < |segs[1..]| && segs[1..][i].ext == e {
          var i :| 0 <= i < |segs[1..]| && segs[1..][i].ext == e;
          assert segs[i + 1].ext == e;
        }
      }
    }
  }

  lemma SeenAllocated(s: Ledger, segs: seq<Seg>)
    requires InRange(s, segs) && InAllocated(s, segs)
    ensures forall i :: 0 <= i < |Seen(segs, [])| ==> Seen(segs, [])[i] < |s.bits| && s.bits[Seen(segs, [])[i]]
  {
    SeenFrom(segs, []);
    forall i | 0 <= i < |Seen(segs, [])| ensures Seen(segs, [])[i] < |s.bits| && s.bits[Seen(segs, [])[i]] {
      assert Seen(segs, [])[i] in Seen(segs, []);
    }
  }

  lemma {:induction false} ShareSegsFrame(t: Txn, segs: seq<Seg>)
    requires WellFormed(t.led)
    ensures var r := ShareSegs(t, segs);
      && r.led == t.led.(shared := r.led.shared)
      && r.draft == t.draft.(sharedInc := r.draft.sharedInc)
    decreases |segs|
  {
    if segs != [] {
      var x := segs[0];
      var n := if x in t.led.shared then t.led.shared[x] else 1;
      ShareSegsFrame(Txn(t.led.(shared := t.led.shared[x := n + 1]),
                         t.draft.(sharedInc := t.draft.sharedInc + [x])), segs[1..]);
    }
  }

  lemma ModDrop(x: int, len: nat)
    requires x % U32 >= len
    ensures (x - len) % U32 == x % U32 - len
  {
    ModShift(x, 0 - len as int);
  }

  lemma DecLiveCounters(s0: Ledger, t: Txn, x: nat, len: nat, e: nat)
    requires SameShape(s0, t) && e < |s0.bits| && x < |s0.bits| && CountersTrack(s0, t, e)
    ensures CountersTrack(s0, DecLive(t, x, len), e)
  {
    SumForAppend(t.draft.liveDec, (x, len), e);
    if x == e && len <= t.led.live[x] {
      ModDrop((s0.live[x] + SumFor(t.draft.liveInc, x)) as int - SumFor(t.draft.liveDec, x), len);
    }
  }

  lemma DecLiveBit(s0: Ledger, t: Txn, x: nat, len: nat, e: nat)
    requires SameShape(s0, t) && e < |s0.bits| && x < |s0.bits| && BitTracks(s0, t, e)
    requires len > 0 || t.led.bits[x]
    ensures BitTracks(s0, DecLive(t, x, len), e)
  {
  }

  lemma DecLiveExtent(s0: Ledger, t: Txn, x: nat, len: nat, e: nat)
    requires ExtentTracks(s0, t, e) && x < |t.led.bits| && (len > 0 || t.led.bits[x])
    ensures ExtentTracks(s0, DecLive(t, x, len), e)
  {
    DecLiveCounters(s0, t, x, len, e);
    DecLiveBit(s0, t, x, len, e);
  }

  lemma {:induction false} ReleaseSegsExtent(s0: Ledger, t: Txn, segs: seq<Seg>, e: nat)
    requires ExtentTracks(s0, t, e) && InRange(t.led, segs)
    requires forall i :: 0 <= i < |segs| ==> segs[i].len > 0 || t.led.bits[segs[i].ext]
    ensures ExtentTracks(s0, ReleaseSegs(t, segs), e)
    decreases |segs|
  {
    if segs != [] {
      var k := segs[0];
      if k in t.led.shared {
        var m := if t.led.shared[k] > 1 then t.led.shared[k := t.led.shared[k] - 1] else t.led.shared - {k};
        var r := Txn(t.led.(shared := m), t.draft.(sharedDec := t.draft.sharedDec + [k]));
        assert ExtentTracks(s0, r, e);
        DecLiveExtent(s0, r, k.ext, k.len, e);
      } else {
        DecLiveExtent(s0, t, k.ext, k.len, e);
      }
      ReleaseSegsExtent(s0, ReleaseSeg(t, k), segs[1..], e);
    }
  }

  lemma {:induction false} RefDownExtent(s0: Ledger, t: Txn, ids: seq<nat>, e: nat)
    requires ExtentTracks(s0, t, e)
    requires Below(ids, |t.led.bits|)
    ensures ExtentTracks(s0, RefDown(t, ids), e)
    decreases |ids|
  {
    if ids != [] {
      var x := ids[0];
      if t.led.refcounts[x] == 0 {
        RefDownExtent(s0, t, ids[1..], e);
      } else {
        var r := Txn(t.led.(refcounts := t.led.refcounts[x := t.led.refcounts[x] - 1]),
                     t.draft.(refcountDec := t.draft.refcountDec + [x]));
        CountAppend(t.draft.refcountDec, x, e);
        if x == e {
          ModDrop((s0.refcounts[e] + Count(t.draft.refcountInc, e)) as int - Count(t.draft.refcountDec, e), 1);
        }
        RefDownExtent(s0, r, ids[1..], e);
      }
    }
  }

  lemma {:induction false} TakeAllAt(s: Ledger, ids: seq<nat>)
    requires WellFormed(s) && Below(ids, |s.bits|)
    ensures var r := TakeAll(s, ids);
      && (forall e :: 0 <= e < |s.bits| ==> r.bits[e] == (s.bits[e] || e in ids))
      && (forall e :: 0 <= e < |s.bits| ==> r.refcounts[e] == if e in ids then 0 else s.refcounts[e])
      && (forall e :: 0 <= e < |s.bits| && e !in ids ==> r.generations[e] == s.generations[e])
      && r.totalAlloc == s.totalAlloc + |ids|
      && r == s.(bits := r.bits, refcounts := r.refcounts, generations := r.generations,
                 totalAlloc := r.totalAlloc)
    decreases |ids|
  {
    if ids != [] {
      var e := ids[0];
      TakeAllAt(s.(bits := s.bits[e := true], refcounts := s.refcounts[e := 0],
                   generations := s.generations[e := s.generations[e] + 1],
                   totalAlloc := s.totalAlloc + 1), ids[1..]);
    }
  }

  lemma {:induction false} GiveBackAllAt(s: Ledger, ids: seq<nat>)
    requires WellFormed(s) && Below(ids, |s.bits|)
    ensures var r := GiveBackAll(s, ids);
      && (forall e :: 0 <= e < |s.bits| ==> r.bits[e] == (s.bits[e] && e !in ids))
      && (forall e :: 0 <= e < |s.bits| ==> r.refcounts[e] == if e in ids then 0 else s.refcounts[e])
      && (forall e :: 0 <= e < |s.bits| ==> r.live[e] == if e in ids then 0 else s.live[e])
      && r.totalAlloc == s.totalAlloc - |ids|
      && r == s.(bits := r.bits, refcounts := r.refcounts, live := r.live, phase := r.phase,
                 totalAlloc := r.totalAlloc)
    decreases |ids|
  {
    if ids != [] {
      var e := ids[0];
      GiveBackAllAt(s.(bits := s.bits[e := false], refcounts := s.refcounts[e := 0],
                       live := s.live[e := 0], phase := s.phase[e := Free],
                       totalAlloc := s.totalAlloc - 1), ids[1..]);
    }
  }

  /** Recording `ids` as ranges adds exactly them to the draft's ids. */
  lemma IdsAfter(d: Staged, ids: seq<nat>, ranges: seq<(nat, nat)>)
    requires multiset(Expand(ranges)) == multiset(ids)
    ensures var all := Ids(d.(alloc := d.alloc + ranges));
      && |all| == |Ids(d)| + |ids|
      && forall e :: e in all <==> e in Ids(d) || e in ids
  {
    ExpandAppend(d.alloc, ranges);
    assert |multiset(Expand(ranges))| == |multiset(ids)|;
    forall e ensures e in Expand(ranges) <==> e in ids {
      assert e in multiset(Expand(ranges)) <==> e in Expand(ranges);
      assert e in multiset(ids) <==> e in ids;
    }
  }

  lemma AllocateExtent(s0: Ledger, t: Txn, c: Call, e: nat)
    requires ExtentTracks(s0, t, e) && Legal(t, c) && c.CallAllocate?
    ensures ExtentTracks(s0, Do(t, c), e)
  {
    TakeAllAt(Isolate(t.led, c.skipped), c.ids);
    IdsAfter(t.draft, c.ids, c.ranges);
  }

  lemma NoSpaceExtent(s0: Ledger, t: Txn, c: Call, e: nat)
    requires ExtentTracks(s0, t, e) && Legal(t, c) && c.CallNoSpace?
    ensures ExtentTracks(s0, Do(t, c), e)
  {
    TakeAllAt(Isolate(t.led, c.skipped), c.ids);
    GiveBackAllAt(TakeAll(Isolate(t.led, c.skipped), c.ids), c.ids);
  }

  lemma AddExtent(s0: Ledger, t: Txn, segs: seq<Seg>, e: nat)
    requires ExtentTracks(s0, t, e) && InRange(t.led, segs) && InAllocated(t.led, segs)
    ensures ExtentTracks(s0, AddObject(t, segs), e)
  {
    AddSegsExtent(s0, t, multiset(t.draft.inflight), segs, e);
    SeenAllocated(t.led, segs);
    RefUpExtent(s0, AddSegs(t, multiset(t.draft.inflight), segs), Seen(segs, []), e);
  }

  lemma ShareExtent(s0: Ledger, t: Txn, segs: seq<Seg>, e: nat)
    requires ExtentTracks(s0, t, e) && InRange(t.led, segs) && InAllocated(t.led, segs)
    ensures ExtentTracks(s0, ShareObject(t, segs), e)
  {
    ShareSegsFrame(t, segs);
    SeenAllocated(t.led, segs);
    RefUpExtent(s0, ShareSegs(t, segs), Seen(segs, []), e);
  }

  lemma ReleaseExtent(s0: Ledger, t: Txn, segs: seq<Seg>, e: nat)
    requires ExtentTracks(s0, t, e) && InRange(t.led, segs)
    requires forall i :: 0 <= i < |segs| ==> segs[i].len > 0 || t.led.bits[segs[i].ext]
    ensures ExtentTracks(s0, ReleaseObject(t, segs), e)
  {
    ReleaseSegsExtent(s0, t, segs, e);
    SeenInRange(t.led, segs, []);
    RefDownExtent(s0, ReleaseSegs(t, segs), Seen(segs, []), e);
  }

  lemma CallExtent(s0: Ledger, t: Txn, c: Call, e: nat)
    requires ExtentTracks(s0, t, e) && Legal(t, c)
    ensures ExtentTracks(s0, Do(t, c), e)
  {
    match c
    case CallAllocate(_, _, _) => AllocateExtent(s0, t, c, e);
    case CallNoSpace(_, _) => NoSpaceExtent(s0, t, c, e);
    case CallNote(seg) => GainLiveExtent(s0, t, (seg.ext, seg.len), e);
    case CallAdd(segs) => AddExtent(s0, t, segs, e);
    case CallShare(segs) => ShareExtent(s0, t, segs, e);
    case CallRelease(segs) => ReleaseExtent(s0, t, segs, e);
  }

  // ---------- every call keeps the share table's part ----------

  lemma {:induction false} ShareSegsKey(s0: Ledger, t: Txn, segs: seq<Seg>, k: Seg)
    requires WellFormed(t.led) && ShareTracks(s0, t, k)
    ensures ShareTracks(s0, ShareSegs(t, segs), k)
    decreases |segs|
  {
    if segs != [] {
      var x := segs[0];
      var n := if x in t.led.shared then t.led.shared[x] else 1;
      CountAppend(t.draft.sharedInc, x, k);
      ShareSegsKey(s0, Txn(t.led.(shared := t.led.shared[x := n + 1]),
                           t.draft.(sharedInc := t.draft.sharedInc + [x])), segs[1..], k);
    }
  }

  lemma ReleaseSegKey(s0: Ledger, t: Txn, x: Seg, k: Seg)
    requires WellFormed(t.led) && x.ext < |t.led.bits| && ShareTracks(s0, t, k)
    ensures ShareTracks(s0, ReleaseSeg(t, x), k)
  {
    CountAppend(t.draft.sharedDec, x, k);
  }

  lemma {:induction false} ReleaseSegsKey(s0: Ledger, t: Txn, segs: seq<Seg>, k: Seg)
    requires WellFormed(t.led) && InRange(t.led, segs) && ShareTracks(s0, t, k)
    ensures ShareTracks(s0, ReleaseSegs(t, segs), k)
    decreases |segs|
  {
    if segs != [] {
      ReleaseSegKey(s0, t, segs[0], k);
      ReleaseSegsKey(s0, ReleaseSeg(t, segs[0]), segs[1..], k);
    }
  }

  lemma {:induction false} AddSegsFrame(t: Txn, pre: multiset<(nat, nat)>, segs: seq<Seg>)
    requires WellFormed(t.led) && InRange(t.led, segs)
    ensures var r := AddSegs(t, pre, segs);
      r.led == t.led.(live := r.led.live) && r.draft == t.draft.(liveInc := r.draft.liveInc)
    decreases |segs|
  {
    if segs != [] {
      var key := (segs[0].ext, segs[0].len);
      if key in pre {
        AddSegsFrame(t, pre - multiset{key}, segs[1..]);
      } else {
        AddSegsFrame(GainLive(t, key), pre, segs[1..]);
      }
    }
  }

  lemma {:induction false} RefUpFrame(t: Txn, ids: seq<nat>)
    requires WellFormed(t.led) && Below(ids, |t.led.bits|)
    ensures var r := RefUp(t, ids);
      r.led == t.led.(refcounts := r.led.refcounts) && r.draft == t.draft.(refcountInc := r.draft.refcountInc)
    decreases |ids|
  {
    if ids != [] {
      RefUpFrame(RefUpOne(t, ids[0]), ids[1..]);
    }
  }

  lemma {:induction false} RefDownFrame(t: Txn, ids: seq<nat>)
    requires WellFormed(t.led) && Below(ids, |t.led.bits|)
    ensures var r := RefDown(t, ids);
      r.led == t.led.(refcounts := r.led.refcounts) && r.draft == t.draft.(refcountDec := r.draft.refcountDec)
    decreases |ids|
  {
    if ids != [] {
      var x := ids[0];
      RefDownFrame(if t.led.refcounts[x] == 0 then t
                   else Txn(t.led.(refcounts := t.led.refcounts[x := t.led.refcounts[x] - 1]),
                            t.draft.(refcountDec := t.draft.refcountDec + [x])), ids[1..]);
    }
  }

  lemma CallKey(s0: Ledger, t: Txn, c: Call, k: Seg)
    requires WellFormed(t.led) && ShareTracks(s0, t, k) && Legal(t, c)
    ensures ShareTracks(s0, Do(t, c), k)
  {
    match c
    case CallAllocate(ids, skipped, _) => TakeAllAt(Isolate(t.led, skipped), ids);
    case CallNoSpace(ids, skipped) =>
      TakeAllAt(Isolate(t.led, skipped), ids);
      GiveBackAllAt(TakeAll(Isolate(t.led, skipped), ids), ids);
    case CallNote(_) =>
    case CallAdd(segs) =>
      SeenInRange(t.led, segs, []);
      AddSegsFrame(t, multiset(t.draft.inflight), segs);
      RefUpFrame(AddSegs(t, multiset(t.draft.inflight), segs), Seen(segs, []));
    case CallShare(segs) =>
      SeenInRange(t.led, segs, []);
      ShareSegsKey(s0, t, segs, k);
      RefUpFrame(ShareSegs(t, segs), Seen(segs, []));
    case CallRelease(segs) =>
      SeenInRange(t.led, segs, []);
      ReleaseSegsKey(s0, t, segs, k);
      RefDownFrame(ReleaseSegs(t, segs), Seen(segs, []));
  }

  // ---------- every call keeps the totals ----------

  lemma {:induction false} ReleaseSegsFrame(t: Txn, segs: seq<Seg>)
    requires WellFormed(t.led) && InRange(t.led, segs) && DraftInRange(t.led, t.draft)
    ensures var r := ReleaseSegs(t, segs);
      && r.led == t.led.(live := r.led.live, shared := r.led.shared)
      && r.draft.alloc == t.draft.alloc
      && DraftInRange(r.led, r.draft)
    decreases |segs|
  {
    if segs != [] {
      ReleaseSegsFrame(ReleaseSeg(t, segs[0]), segs[1..]);
    }
  }

  lemma {:induction false} AddSegsRange(t: Txn, pre: multiset<(nat, nat)>, segs: seq<Seg>)
    requires WellFormed(t.led) && InRange(t.led, segs) && DraftInRange(t.led, t.draft)
    ensures var r := AddSegs(t, pre, segs); DraftInRange(r.led, r.draft)
    decreases |segs|
  {
    if segs != [] {
      var key := (segs[0].ext, segs[0].len);
      if key in pre {
        AddSegsRange(t, pre - multiset{key}, segs[1..]);
      } else {
        AddSegsRange(GainLive(t, key), pre, segs[1..]);
      }
    }
  }

  lemma {:induction false} RefUpRange(t: Txn, ids: seq<nat>)
    requires WellFormed(t.led) && DraftInRange(t.led, t.draft)
    requires Below(ids, |t.led.bits|)
    ensures var r := RefUp(t, ids); DraftInRange(r.led, r.draft)
    decreases |ids|
  {
    if ids != [] {
      RefUpRange(RefUpOne(t, ids[0]), ids[1..]);
    }
  }

  lemma {:induction false} RefDownRange(t: Txn, ids: seq<nat>)
    requires WellFormed(t.led) && DraftInRange(t.led, t.draft)
    requires Below(ids, |t.led.bits|)
    ensures var r := RefDown(t, ids); DraftInRange(r.led, r.draft)
    decreases |ids|
  {
    if ids != [] {
      var x := ids[0];
      RefDownRange(if t.led.refcounts[x] == 0 then t
                   else Txn(t.led.(refcounts := t.led.refcounts[x := t.led.refcounts[x] - 1]),
                            t.draft.(refcountDec := t.draft.refcountDec + [x])), ids[1..]);
    }
  }

  lemma AllocateTotals(s0: Ledger, t: Txn, c: Call)
    requires TotalsTrack(s0, t) && Legal(t, c) && c.CallAllocate?
    ensures TotalsTrack(s0, Do(t, c))
  {
    TakeAllAt(Isolate(t.led, c.skipped), c.ids);
    IdsAfter(t.draft, c.ids, c.ranges);
    var all := Ids(Do(t, c).draft);
    forall i | 0 <= i < |all| ensures all[i] < |t.led.bits| {
      assert all[i] in Ids(t.draft) || all[i] in c.ids;
    }
  }

  lemma AddTotals(s0: Ledger, t: Txn, segs: seq<Seg>)
    requires TotalsTrack(s0, t) && InRange(t.led, segs)
    ensures TotalsTrack(s0, AddObject(t, segs))
  {
    SeenInRange(t.led, segs, []);
    var a := AddSegs(t, multiset(t.draft.inflight), segs);
    AddSegsFrame(t, multiset(t.draft.inflight), segs);
    AddSegsRange(t, multiset(t.draft.inflight), segs);
    RefUpFrame(a, Seen(segs, []));
    RefUpRange(a, Seen(segs, []));
  }

  lemma ShareTotals(s0: Ledger, t: Txn, segs: seq<Seg>)
    requires TotalsTrack(s0, t) && InRange(t.led, segs)
    ensures TotalsTrack(s0, ShareObject(t, segs))
  {
    SeenInRange(t.led, segs, []);
    ShareSegsFrame(t, segs);
    RefUpFrame(ShareSegs(t, segs), Seen(segs, []));
    RefUpRange(ShareSegs(t, segs), Seen(segs, []));
  }

  lemma ReleaseTotals(s0: Ledger, t: Txn, segs: seq<Seg>)
    requires TotalsTrack(s0, t) && InRange(t.led, segs)
    ensures TotalsTrack(s0, ReleaseObject(t, segs))
  {
    SeenInRange(t.led, segs, []);
    ReleaseSegsFrame(t, segs);
    RefDownFrame(ReleaseSegs(t, segs), Seen(segs, []));
    RefDownRange(ReleaseSegs(t, segs), Seen(segs, []));
  }

  lemma CallTotals(s0: Ledger, t: Txn, c: Call)
    requires TotalsTrack(s0, t) && Legal(t, c)
    ensures TotalsTrack(s0, Do(t, c))
  {
    match c
    case CallAllocate(ids, skipped, ranges) => AllocateTotals(s0, t, c);
    case CallNoSpace(ids, skipped) =>
      TakeAllAt(Isolate(t.led, skipped), ids);
      GiveBackAllAt(TakeAll(Isolate(t.led, skipped), ids), ids);
    case CallNote(_) =>
    case CallAdd(segs) => AddTotals(s0, t, segs);
    case CallShare(segs) => ShareTotals(s0, t, segs);
    case CallRelease(segs) => ReleaseTotals(s0, t, segs);
  }

  // ---------- whole drafts ----------

  ghost predicate Tracks(s0: Ledger, t: Txn) {
    && TotalsTrack(s0, t)
    && (forall e :: 0 <= e < |s0.bits| ==> ExtentTracks(s0, t, e))
    && (forall k :: ShareTracks(s0, t, k))
  }

  lemma CallTracks(s0: Ledger, t: Txn, c: Call)
    requires Tracks(s0, t) && Legal(t, c)
    ensures Tracks(s0, Do(t, c))
  {
    var r := Do(t, c);
    CallTotals(s0, t, c);
    forall e | 0 <= e < |s0.bits| ensures ExtentTracks(s0, r, e) {
      CallExtent(s0, t, c, e);
    }
    forall k ensures ShareTracks(s0, r, k) {
      assert ShareTracks(s0, t, k);
      CallKey(s0, t, c, k);
    }
  }

  lemma {:induction false} DraftTracks(s0: Ledger, t: Txn, calls: seq<Call>)
    requires Tracks(s0, t) && LegalAll(t, calls)
    ensures Tracks(s0, DoAll(t, calls))
    decreases |calls|
  {
    if calls != [] {
      CallTracks(s0, t, calls[0]);
      DraftTracks(s0, Do(t, calls[0]), calls[1..]);
    }
  }

  lemma BeginTracks(s: Ledger)
    requires Sound(s)
    ensures Tracks(s, Txn(s, EMPTY_DRAFT))
  {
  }

  // ---------- the theorem ----------

  /** The ledger `r` agrees with `s0` on everything that a rollback promises to restore, with the
      share table compared at the keys in `exact`. Extents that a reader has pinned keep a bit that
      an allocation ran into, and are isolated. */
  ghost predicate Restores(s0: Ledger, r: Ledger, exact: iset<Seg>)
    requires WellFormed(s0) && WellFormed(r)
  {
    && r.live == s0.live
    && r.refcounts == s0.refcounts
    && r.totalAlloc == s0.totalAlloc
    && r.totalFree == s0.totalFree
    && |r.bits| == |s0.bits| && r.pins == s0.pins
    && (forall e :: 0 <= e < |s0.bits| && s0.pins[e] == 0 ==> r.bits[e] == s0.bits[e])
    && (forall e :: 0 <= e < |s0.bits| && s0.pins[e] > 0 && r.bits[e] != s0.bits[e] ==>
          r.bits[e] && e in r.isolated)
    && (forall k :: k in exact ==> KeepsEntry(s0.shared, r.shared, k))
  }

  /** The entry is back, or it stood for a single holder and has been dropped. */
  predicate KeepsEntry(was: map<Seg, nat>, now: map<Seg, nat>, k: Seg) {
    Entry(now, k) == Entry(was, k) || (Entry(was, k) == 1 && Entry(now, k) == 0)
  }

  /** The keys that a draft has not both shared and released. */
  ghost function OneSided(d: Staged): iset<Seg> {
    iset k: Seg | !(k in d.sharedInc && k in d.sharedDec)
  }

  lemma ModUndo(base: nat, up: nat, down: nat)
    requires base < U32
    ensures (((base + up - down) % U32 + down) % U32 - up) % U32 == base
  {
    ModShift((base + up) as int - down, down);
    ModShift(base + up, 0 - up as int);
  }

  lemma UndoLiveAt(s0: Ledger, t: Txn, e: nat)
    requires CountersKept(s0, t, e) && DraftInRange(t.led, t.draft)
    ensures ShiftLive(ShiftLive(t.led.live, t.draft.liveDec, true), t.draft.liveInc, false)[e] == s0.live[e]
  {
    ShiftLiveAt(t.led.live, t.draft.liveDec, true, e);
    ShiftLiveAt(ShiftLive(t.led.live, t.draft.liveDec, true), t.draft.liveInc, false, e);
    ModUndo(s0.live[e], SumFor(t.draft.liveInc, e), SumFor(t.draft.liveDec, e));
  }

  lemma UndoRefsAt(s0: Ledger, t: Txn, e: nat)
    requires CountersKept(s0, t, e) && DraftInRange(t.led, t.draft)
    ensures ShiftRefs(ShiftRefs(t.led.refcounts, t.draft.refcountDec, true), t.draft.refcountInc, false)[e]
              == s0.refcounts[e]
  {
    ShiftRefsAt(t.led.refcounts, t.draft.refcountDec, true, e);
    ShiftRefsAt(ShiftRefs(t.led.refcounts, t.draft.refcountDec, true), t.draft.refcountInc, false, e);
    ModUndo(s0.refcounts[e], Count(t.draft.refcountInc, e), Count(t.draft.refcountDec, e));
  }

  lemma UndoCounters(s0: Ledger, t: Txn)
    requires SameShape(s0, t) && DraftInRange(t.led, t.draft)
    requires forall e :: 0 <= e < |s0.bits| ==> CountersKept(s0, t, e)
    ensures ShiftLive(ShiftLive(t.led.live, t.draft.liveDec, true), t.draft.liveInc, false) == s0.live
    ensures ShiftRefs(ShiftRefs(t.led.refcounts, t.draft.refcountDec, true), t.draft.refcountInc, false)
              == s0.refcounts
  {
    forall e | 0 <= e < |s0.bits|
      ensures ShiftLive(ShiftLive(t.led.live, t.draft.liveDec, true), t.draft.liveInc, false)[e] == s0.live[e]
    {
      UndoLiveAt(s0, t, e);
    }
    forall e | 0 <= e < |s0.bits|
      ensures ShiftRefs(ShiftRefs(t.led.refcounts, t.draft.refcountDec, true), t.draft.refcountInc, false)[e]
                == s0.refcounts[e]
    {
      UndoRefsAt(s0, t, e);
    }
  }

  lemma UndoShares(s0: Ledger, t: Txn, k: Seg)
    requires WellFormed(t.led) && ShareTracks(s0, t, k) && k in OneSided(t.draft)
    ensures KeepsEntry(s0.shared, Reshare(Unshare(t.led.shared, t.draft.sharedInc), t.draft.sharedDec), k)
  {
    UndoShareAt(t.led.shared, t.draft.sharedInc, t.draft.sharedDec, k);
    CountPositive(t.draft.sharedInc, k);
    CountPositive(t.draft.sharedDec, k);
  }

  /** Whether the transaction failed before its commit point (`s == t.led`) or after it
      (`s == Settle(t.led, ..)`), un-clearing gives back the bits and the free total. */
  lemma UnclearUndoesSettle(s0: Ledger, t: Txn, s: Ledger)
    requires Tracks(s0, t)
    requires s == t.led || s == Settle(t.led, t.draft.cleared)
    ensures var u := Unclear(s, t.draft.cleared);
      && u == t.led.(phase := u.phase, isolated := u.isolated)
      && u.isolated >= t.led.isolated
  {
    SettleAt(t.led, t.draft.cleared);
    UnclearAt(s, t.draft.cleared);
    forall e | 0 <= e < |t.led.bits| ensures Unclear(s, t.draft.cleared).bits[e] == t.led.bits[e] {
      assert ExtentTracks(s0, t, e);
    }
    assert Unclear(s, t.draft.cleared).bits == t.led.bits;
  }

  lemma RollbackFrom(s0: Ledger, t: Txn, s: Ledger)
    requires Tracks(s0, t)
    requires s == t.led || s == Settle(t.led, t.draft.cleared)
    ensures DraftInRange(s, t.draft)
    ensures Restores(s0, Rollback(s, t.draft), OneSided(t.draft))
  {
    UnclearUndoesSettle(s0, t, s);
    var u := Unclear(s, t.draft.cleared);
    UnallocateAt(u, Ids(t.draft));
    forall e | 0 <= e < |s0.bits| ensures CountersKept(s0, t, e) {
      assert ExtentTracks(s0, t, e);
    }
    UndoCounters(s0, t);
    var r := Rollback(s, t.draft);
    forall e | 0 <= e < |s0.bits|
      ensures s0.pins[e] == 0 ==> r.bits[e] == s0.bits[e]
      ensures s0.pins[e] > 0 && r.bits[e] != s0.bits[e] ==> r.bits[e] && e in r.isolated
    {
      assert ExtentTracks(s0, t, e);
    }
    forall k | k in OneSided(t.draft) ensures KeepsEntry(s0.shared, r.shared, k) {
      assert ShareTracks(s0, t, k);
      UndoShares(s0, t, k);
    }
  }

  /** Rollback is an exact inverse of any draft, before or after its commit point. */
  lemma RollbackRestores(s0: Ledger, calls: seq<Call>)
    requires Sound(s0) && LegalAll(Txn(s0, EMPTY_DRAFT), calls)
    ensures var t := DoAll(Txn(s0, EMPTY_DRAFT), calls);
      && DraftInRange(t.led, t.draft)
      && Restores(s0, Rollback(t.led, t.draft), OneSided(t.draft))
      && Restores(s0, Rollback(Settle(t.led, t.draft.cleared), t.draft), OneSided(t.draft))
  {
    var t := DoAll(Txn(s0, EMPTY_DRAFT), calls);
    BeginTracks(s0);
    DraftTracks(s0, Txn(s0, EMPTY_DRAFT), calls);
    RollbackFrom(s0, t, t.led);
    RollbackFrom(s0, t, Settle(t.led, t.draft.cleared));
  }

  // ---------- objects of one segment ----------

  lemma AddOne(t: Txn, k: Seg)
    requires WellFormed(t.led) && k.ext < |t.led.bits| && t.draft.inflight == [] && t.led.live[k.ext] + k.len < U32
    ensures var u := AddObject(t, [k]);
      && u.led == t.led.(live := t.led.live[k.ext := t.led.live[k.ext] + k.len], refcounts := u.led.refcounts)
      && u.draft.cleared == t.draft.cleared && u.draft.alloc == t.draft.alloc
  {
    SeenInRange(t.led, [k], []);
    AddSegsFrame(t, multiset{}, [k]);
    assert [k][1..] == [];
    assert multiset(t.draft.inflight) == multiset{};
    assert AddSegs(t, multiset{}, [k]) == AddSegs(GainLive(t, (k.ext, k.len)), multiset{}, []);
    RefUpFrame(AddSegs(t, multiset{}, [k]), Seen([k], []));
  }

  lemma ReleaseUnshared(t: Txn, k: Seg)
    requires WellFormed(t.led) && k.ext < |t.led.bits| && t.led.shared == map[] && t.led.live[k.ext] >= k.len
    ensures var u := ReleaseObject(t, [k]);
      && u.led == t.led.(live := t.led.live[k.ext := t.led.live[k.ext] - k.len], refcounts := u.led.refcounts)
      && u.draft.cleared == t.draft.cleared + (if t.led.live[k.ext] == k.len then [k.ext] else [])
      && u.draft.alloc == t.draft.alloc && u.draft.inflight == t.draft.inflight
      && u.draft.liveDec == t.draft.liveDec + [(k.ext, k.len)] && u.draft.liveInc == t.draft.liveInc
  {
    SeenInRange(t.led, [k], []);
    assert [k][1..] == [];
    assert ReleaseSegs(t, [k]) == ReleaseSegs(ReleaseSeg(t, k), []) == DecLive(t, k.ext, k.len);
    RefDownFrame(ReleaseSegs(t, [k]), Seen([k], []));
  }
}
