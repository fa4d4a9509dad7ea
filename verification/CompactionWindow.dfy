/** The allocator while a switch is open: its draft has been applied and settled, and nobody knows yet
    whether it will commit. Others go on meanwhile. What each of their transactions may do so that both
    outcomes still leave the books right, exactly. */
module CompactionWindows {
  import opened Ledgers
  import opened Rollbacks
  import opened Holdings
  import opened Runs
  import opened Undoing
  import opened CompactionLedgers

  // ---------- arithmetic ----------

  lemma ModOf(x: int, b: nat, q: int)
    requires b < U32 && x == q * U32 + b
    ensures x % U32 == b
  {
  }

  /** A counter that stood for `b` stands for `b - l` after a drop if and only if the drop was `l`. */
  lemma DropExact(live: nat, live': nat, owed: int, b: nat, l: nat)
    requires Wraps(live + owed, b) && live' <= live < U32 && l <= b
    ensures Wraps(live' + owed, b - l) <==> live == live' + l
  {
    var x, y := live + owed, live' + owed;
    var q, drop := x / U32, live - live';
    assert x == q * U32 + b && y == x - drop;
    if drop == l {
      ModOf(y, b - l, q);
    } else if drop <= b {
      ModOf(y, b - drop, q);
    } else {
      ModOf(y, b - drop + U32, q - 1);
    }
  }

  /** The counter has gone up by `l`, but for wrapping. */
  ghost predicate Rose(live: nat, live': nat, l: nat) {
    (live' - live - l) % U32 == 0
  }

  // ---------- releasing an object beside an open draft ----------

  lemma {:induction false} ReleaseLowers(t: Txn, segs: seq<Seg>, e: nat)
    requires WellFormed(t.led) && InRange(t.led, segs) && e < |t.led.bits|
    ensures ReleaseSegs(t, segs).led.live[e] <= t.led.live[e]
    decreases |segs|
  {
    if segs != [] {
      ReleaseLowers(ReleaseSeg(t, segs[0]), segs[1..], e);
    }
  }

  function Released(entry: nat): nat {
    if entry > 1 then entry - 1 else 0
  }

  lemma {:induction false} ReleaseEntry(t: Txn, segs: seq<Seg>, k: Seg)
    requires WellFormed(t.led) && InRange(t.led, segs) && Distinct(segs)
    ensures Entry(ReleaseSegs(t, segs).led.shared, k) ==
      if k in segs then Released(Entry(t.led.shared, k)) else Entry(t.led.shared, k)
    decreases |segs|
  {
    if segs != [] {
      ReleaseEntry(ReleaseSeg(t, segs[0]), segs[1..], k);
      assert k in segs <==> k == segs[0] || k in segs[1..];
      if k == segs[0] {
        assert k !in segs[1..];
      }
    }
  }

  /** What a release takes off an extent with `live` bytes, segment by segment: nothing for a segment that
      has further holders by the table, and nothing where fewer bytes are left than the segment has. */
  function TakenOff(shared: map<Seg, nat>, live: nat, segs: seq<Seg>, e: nat): (r: nat)
    ensures r <= live
  {
    if segs == [] then 0 else
      var due := if Entry(shared, segs[0]) <= 1 && Weight(segs[0], e) <= live then Weight(segs[0], e) else 0;
      due + TakenOff(shared, live - due, segs[1..], e)
  }

  lemma {:induction false} TakenSame(a: map<Seg, nat>, b: map<Seg, nat>, live: nat, segs: seq<Seg>, e: nat)
    requires forall k :: k in segs ==> Entry(a, k) == Entry(b, k)
    ensures TakenOff(a, live, segs, e) == TakenOff(b, live, segs, e)
    decreases |segs|
  {
    if segs != [] {
      var due := if Entry(a, segs[0]) <= 1 && Weight(segs[0], e) <= live then Weight(segs[0], e) else 0;
      TakenSame(a, b, live - due, segs[1..], e);
    }
  }

  lemma ReleaseOneTakes(t: Txn, k: Seg, e: nat)
    requires WellFormed(t.led) && k.ext < |t.led.bits| && e < |t.led.bits|
    ensures ReleaseSeg(t, k).led.live[e] ==
      t.led.live[e] - (if Entry(t.led.shared, k) <= 1 && Weight(k, e) <= t.led.live[e] then Weight(k, e) else 0)
    ensures k.len > 0 ==> (e in ReleaseSeg(t, k).draft.cleared <==>
      e in t.draft.cleared || (t.led.live[e] > 0 && ReleaseSeg(t, k).led.live[e] == 0))
  {
  }

  lemma ReleaseOneEntry(t: Txn, k: Seg, x: Seg)
    requires WellFormed(t.led) && k.ext < |t.led.bits| && x != k
    ensures Entry(ReleaseSeg(t, k).led.shared, x) == Entry(t.led.shared, x)
  {
  }

  /** A release of distinct segments takes off just that, and records the extents that it has emptied. */
  lemma {:induction false} ReleaseTakes(t: Txn, segs: seq<Seg>, e: nat)
    requires WellFormed(t.led) && InRange(t.led, segs) && Distinct(segs) && e < |t.led.bits|
    requires forall i :: 0 <= i < |segs| ==> segs[i].len > 0
    ensures var r := ReleaseSegs(t, segs);
      && r.led.live[e] == t.led.live[e] - TakenOff(t.led.shared, t.led.live[e], segs, e)
      && (e in r.draft.cleared <==> e in t.draft.cleared || (t.led.live[e] > 0 && r.led.live[e] == 0))
    decreases |segs|
  {
    if segs != [] {
      var r := ReleaseSeg(t, segs[0]);
      forall k | k in segs[1..] ensures Entry(r.led.shared, k) == Entry(t.led.shared, k) {
        ReleaseOneEntry(t, segs[0], k);
      }
      ReleaseOneTakes(t, segs[0], e);
      assert forall i :: 0 <= i < |segs[1..]| ==> segs[1..][i] == segs[i + 1];
      TakenSame(r.led.shared, t.led.shared, r.led.live[e], segs[1..], e);
      ReleaseTakes(r, segs[1..], e);
    }
  }

  /** The listed segments whose release is for good. */
  function Once(shared: map<Seg, nat>, segs: seq<Seg>): set<Seg> {
    set k | k in segs && Entry(shared, k) <= 1
  }

  /** With enough bytes on the extent, those of all such segments are taken off. */
  lemma {:induction false} TakenIsOnce(shared: map<Seg, nat>, live: nat, segs: seq<Seg>, e: nat)
    requires Distinct(segs) && Bytes(Once(shared, segs), e) <= live
    ensures TakenOff(shared, live, segs, e) == Bytes(Once(shared, segs), e)
    decreases |segs|
  {
    var all := Once(shared, segs);
    if segs == [] {
      assert all == {};
    } else {
      var rest := Once(shared, segs[1..]);
      if Entry(shared, segs[0]) <= 1 {
        assert all == rest + {segs[0]} && segs[0] !in rest;
        BytesInsert(rest, segs[0], e);
        TakenIsOnce(shared, live - Weight(segs[0], e), segs[1..], e);
      } else {
        assert all == rest;
        TakenIsOnce(shared, live, segs[1..], e);
      }
    }
  }

  /** An extent that loses its last bytes is freed, unless it is pinned. */
  ghost predicate FreedAt(s: Ledger, r: Ledger, taken: nat, e: nat)
    requires WellFormed(s) && WellFormed(r) && e < |s.bits| == |r.bits|
  {
    && r.live[e] == s.live[e] - taken
    && r.bits[e] == (s.bits[e] && !(s.pins[e] == 0 && 0 < s.live[e] == taken))
  }

  /** The ledger after an object was deleted: entries count one holder less, each extent loses what is taken
      off it, and what that empties is freed. */
  lemma FreedShape(s: Ledger, segs: seq<Seg>)
    requires WellFormed(s) && ObjectOk(|s.bits|, segs) && InRange(s, segs)
    ensures var r := Freed(s, segs);
      && r.pins == s.pins
      && (forall e :: 0 <= e < |s.bits| ==> FreedAt(s, r, TakenOff(s.shared, s.live[e], segs, e), e))
      && forall k :: Entry(r.shared, k) == if k in segs then Released(Entry(s.shared, k)) else Entry(s.shared, k)
  {
    var t := Txn(s, EMPTY_DRAFT);
    SeenInRange(s, segs, []);
    ReleaseInRange(s, segs);
    var mid, u := ReleaseSegs(t, segs), ReleaseObject(t, segs);
    RefDownFrame(mid, Seen(segs, []));
    SettleAt(u.led, u.draft.cleared);
    var r := Freed(s, segs);
    forall e | 0 <= e < |s.bits| ensures FreedAt(s, r, TakenOff(s.shared, s.live[e], segs, e), e) {
      ReleaseTakes(t, segs, e);
    }
    forall k ensures Entry(r.shared, k) ==
      if k in segs then Released(Entry(s.shared, k)) else Entry(s.shared, k)
    {
      ReleaseEntry(t, segs, k);
    }
  }

  /** The segments of the `i`-th object that nobody else holds. */
  ghost function Last(objs: seq<Object>, i: nat): set<Seg>
    requires i < |objs|
  {
    set k | k in objs[i] && Holders(objs, k) == 1
  }

  lemma LastAndRest(objs: seq<Object>, i: nat, e: nat)
    requires i < |objs| && Distinct(objs[i])
    ensures Bytes(Keys(objs), e) == Bytes(Keys(objs[i := []]), e) + Bytes(Last(objs, i), e)
    ensures forall k :: Holders(objs[i := []], k) == Holders(objs, k) - (if k in objs[i] then 1 else 0)
  {
    var after := objs[i := []];
    forall k
      ensures Holders(after, k) == Holders(objs, k) - (if k in objs[i] then 1 else 0)
      ensures k in Keys(objs) <==> k in Keys(after) || k in Last(objs, i)
      ensures !(k in Keys(after) && k in Last(objs, i))
    {
      HoldersUpdate(objs, i, [], k);
      DistinctCount(objs[i], k);
      HeldIffKey(objs, k);
      HeldIffKey(after, k);
    }
    assert Keys(objs) == Keys(after) + Last(objs, i);
    BytesUnion(Keys(after), Last(objs, i), e);
  }

  /** A delete that leaves the open draft as easy to undo as before: it releases for good no segment whose
      table entry the draft has removed; what its release takes off each extent are just the bytes of the
      segments that nobody else holds; and where these are all bytes of an allocated and unpinned extent,
      nothing else is held there, or the draft has emptied the extent itself. */
  ghost predicate CleanDelete(s: Ledger, d: Staged, objs: seq<Object>, i: nat)
    requires WellFormed(s) && i < |objs|
  {
    && (forall k :: k in objs[i] && Count(d.sharedDec, k) > 0 ==> k in s.shared)
    && (forall e :: 0 <= e < |s.bits| ==> TakenOff(s.shared, s.live[e], objs[i], e) == Bytes(Last(objs, i), e))
    && forall e :: 0 <= e < |s.bits| && s.bits[e] && s.pins[e] == 0 && 0 < s.live[e] == Bytes(Last(objs, i), e) ==>
         Bytes(Keys(objs[i := []]), e) > 0 ==> e in d.cleared
  }

  /** No extent with objects on it goes from allocated to free, unless the draft had emptied it. */
  ghost predicate Spares(s: Ledger, r: Ledger, d: Staged, objs: seq<Object>) {
    && |r.bits| == |s.bits|
    && forall e :: 0 <= e < |s.bits| && s.bits[e] && !r.bits[e] && Bytes(Keys(objs), e) > 0 ==> e in d.cleared
  }

  lemma DeleteBytes(s: Ledger, r: Ledger, taken: nat, d: Staged, objs: seq<Object>, i: nat, e: nat)
    requires WellFormed(s) && WellFormed(r) && |r.bits| == |s.bits| && e < |s.bits| && FreedAt(s, r, taken, e)
    requires i < |objs| && Distinct(objs[i]) && BytesBack(s, d, objs, [], e)
    ensures BytesBack(r, d, objs[i := []], [], e) <==> taken == Bytes(Last(objs, i), e)
  {
    LastAndRest(objs, i, e);
    DropExact(s.live[e], r.live[e], Owed(d, e), Bytes(Keys(objs), e), Bytes(Last(objs, i), e));
  }

  lemma DeleteShare(s: Ledger, r: Ledger, d: Staged, objs: seq<Object>, i: nat, k: Seg)
    requires i < |objs| && Distinct(objs[i]) && d.sharedInc == [] && ShareBack(s, d, objs, k)
    requires Entry(r.shared, k) == if k in objs[i] then Released(Entry(s.shared, k)) else Entry(s.shared, k)
    requires WellFormed(s)
    ensures ShareBack(r, d, objs[i := []], k) <==> (k in objs[i] && Count(d.sharedDec, k) > 0 ==> k in s.shared)
  {
    LastAndRest(objs, i, 0);
    HoldersUpdate(objs, i, [], k);
    CountPositive(objs[i], k);
  }

  lemma DeleteBit(s: Ledger, r: Ledger, taken: nat, d: Staged, objs: seq<Object>, i: nat, e: nat)
    requires WellFormed(s) && WellFormed(r) && |r.bits| == |s.bits| && e < |s.bits| && FreedAt(s, r, taken, e)
    requires i < |objs| && Distinct(objs[i]) && BitBack(s, d, objs, [], e)
    ensures BitBack(r, d, objs[i := []], [], e) <==>
      (s.bits[e] && s.pins[e] == 0 && 0 < s.live[e] == taken && Bytes(Keys(objs[i := []]), e) > 0 ==> e in d.cleared)
  {
    LastAndRest(objs, i, e);
  }

  /** Beside an open draft that could be undone, a delete keeps that so if and only if it is clean. */
  lemma DeleteIff(s: Ledger, d: Staged, objs: seq<Object>, i: nat)
    requires Balanced(s, d, objs, []) && d.sharedInc == [] && i < |objs| && InRange(s, objs[i])
    ensures Balanced(Freed(s, objs[i]), d, objs[i := []], []) <==> CleanDelete(s, d, objs, i)
  {
    var r, after := Freed(s, objs[i]), objs[i := []];
    assert ObjectOk(|s.bits|, objs[i]);
    forall j | 0 <= j < |after| ensures ObjectOk(|r.bits|, after[j]) {
      assert ObjectOk(|s.bits|, objs[j]);
    }
    FreedShape(s, objs[i]);
    forall e | 0 <= e < |s.bits|
      ensures var taken := TakenOff(s.shared, s.live[e], objs[i], e);
        && (BytesBack(r, d, after, [], e) <==> taken == Bytes(Last(objs, i), e))
        && (BitBack(r, d, after, [], e) <==>
            (s.bits[e] && s.pins[e] == 0 && 0 < s.live[e] == taken && Bytes(Keys(after), e) > 0 ==> e in d.cleared))
    {
      var taken := TakenOff(s.shared, s.live[e], objs[i], e);
      BalancedAt(s, d, objs, [], e);
      DeleteBytes(s, r, taken, d, objs, i, e);
      DeleteBit(s, r, taken, d, objs, i, e);
    }
    forall k ensures ShareBack(r, d, after, k) <==> (k in objs[i] && Count(d.sharedDec, k) > 0 ==> k in s.shared) {
      DeleteShare(s, r, d, objs, i, k);
    }
  }

  // ---------- copying an object beside an open draft ----------

  /** A copy that does not bring back an entry which the draft has removed from the table. */
  ghost predicate CleanCopy(s: Ledger, d: Staged, segs: seq<Seg>) {
    forall k :: k in segs && Count(d.sharedDec, k) > 0 ==> k in s.shared
  }

  lemma CopyShape(s: Ledger, segs: seq<Seg>)
    requires WellFormed(s) && InRange(s, segs) && Distinct(segs)
    ensures var r := ShareObject(Txn(s, EMPTY_DRAFT), segs).led;
      && r == s.(refcounts := r.refcounts, shared := r.shared)
      && forall k :: Entry(r.shared, k) ==
           if k in segs then Holding(Entry(s.shared, k)) + 1 else Entry(s.shared, k)
  {
    var t := Txn(s, EMPTY_DRAFT);
    ShareKeepsBits(s, segs);
    SeenInRange(s, segs, []);
    RefUpFrame(ShareSegs(t, segs), Seen(segs, []));
    forall k ensures Entry(ShareSegs(t, segs).led.shared, k) ==
      if k in segs then Holding(Entry(s.shared, k)) + 1 else Entry(s.shared, k)
    {
      ShareSegsAt(t, segs, k);
      DistinctCount(segs, k);
    }
  }

  lemma CopyShare(s: Ledger, d: Staged, objs: seq<Object>, segs: seq<Seg>, k: Seg)
    requires WellFormed(s) && InRange(s, segs) && Distinct(segs) && d.sharedInc == []
    requires (k in segs ==> k in Keys(objs)) && ShareBack(s, d, objs, k)
    ensures ShareBack(ShareObject(Txn(s, EMPTY_DRAFT), segs).led, d, objs + [segs], k) <==>
      (k in segs && Count(d.sharedDec, k) > 0 ==> k in s.shared)
  {
    CopyShape(s, segs);
    HoldersAppend(objs, segs, k);
    DistinctCount(segs, k);
    HeldIffKey(objs, k);
  }

  /** Beside an open draft that could be undone, a copy keeps that so if and only if it is clean. */
  lemma CopyIff(s: Ledger, d: Staged, objs: seq<Object>, segs: seq<Seg>)
    requires Balanced(s, d, objs, []) && d.sharedInc == [] && ObjectOk(|s.bits|, segs) && InRange(s, segs)
    requires forall i :: 0 <= i < |segs| ==> segs[i] in Keys(objs)
    ensures Balanced(ShareObject(Txn(s, EMPTY_DRAFT), segs).led, d, objs + [segs], []) <==> CleanCopy(s, d, segs)
  {
    var r, after := ShareObject(Txn(s, EMPTY_DRAFT), segs).led, objs + [segs];
    CopyShape(s, segs);
    AppendOk(|s.bits|, objs, segs);
    CopyKeepsKeys(objs, segs);
    forall e | 0 <= e < |s.bits| ensures BytesBack(r, d, after, [], e) && BitBack(r, d, after, [], e) {
      BalancedAt(s, d, objs, [], e);
    }
    forall k ensures ShareBack(r, d, after, k) <==> (k in segs && Count(d.sharedDec, k) > 0 ==> k in s.shared) {
      CopyShare(s, d, objs, segs, k);
    }
  }

  // ---------- putting an object beside an open draft ----------

  lemma {:induction false} AddSegsPlain(t: Txn, segs: seq<Seg>, e: nat)
    requires WellFormed(t.led) && InRange(t.led, segs) && e < |t.led.bits|
    ensures var r := AddSegs(t, multiset{}, segs);
      && SumFor(r.draft.liveInc, e) == SumFor(t.draft.liveInc, e) + SegSum(segs, e)
      && Rose(t.led.live[e], r.led.live[e], SegSum(segs, e))
    decreases |segs|
  {
    if segs != [] {
      var key := (segs[0].ext, segs[0].len);
      var g := GainLive(t, key);
      SumForAppend(t.draft.liveInc, key, e);
      AddSegsPlain(g, segs[1..], e);
      Gained(t.led.live[e], g.led.live[e], Weight(segs[0], e));
      RoseTwice(t.led.live[e], g.led.live[e], AddSegs(t, multiset{}, segs).led.live[e],
                Weight(segs[0], e), SegSum(segs[1..], e));
    }
  }

  lemma Gained(x: nat, y: nat, l: nat)
    requires x < U32 && (y == (x + l) % U32 || (y == x && l == 0))
    ensures Rose(x, y, l)
  {
    var q := (x + l) / U32;
    assert y == x + l - q * U32 || y == x + l;
    ModOf(y - x - l, 0, if y == x + l then 0 else -q);
  }

  lemma RoseTwice(x: nat, y: nat, z: nat, l: nat, m: nat)
    requires Rose(x, y, l) && Rose(y, z, m)
    ensures Rose(x, z, l + m)
  {
    var p, q := (y - x - l) / U32, (z - y - m) / U32;
    assert z - x - (l + m) == (p + q) * U32;
    ModOf(z - x - (l + m), 0, p + q);
  }

  lemma RoseNothing(x: nat, y: nat)
    requires Rose(x, y, 0) && x < U32 && y < U32
    ensures y == x
  {
    var q := (y - x) / U32;
    assert y - x == q * U32;
  }

  lemma RiseExact(live: nat, live': nat, owed: int, b: nat, l: nat)
    requires Wraps(live + owed, b) && Rose(live, live', l) && b + l < U32
    ensures Wraps(live' + owed, b + l)
  {
    var q, p := (live + owed) / U32, (live' - live - l) / U32;
    assert live' + owed == (q + p) * U32 + (b + l);
    ModOf(live' + owed, b + l, q + p);
  }

  lemma AddedShape(t: Txn, segs: seq<Seg>)
    requires WellFormed(t.led) && InRange(t.led, segs) && t.draft.inflight == []
    ensures var r := AddObject(t, segs).led;
      && r.shared == t.led.shared && r.pins == t.led.pins && r.bits == t.led.bits
      && forall e :: 0 <= e < |t.led.bits| ==> Rose(t.led.live[e], r.live[e], SegSum(segs, e))
  {
    assert multiset(t.draft.inflight) == multiset{};
    SeenInRange(t.led, segs, []);
    AddSegsFrame(t, multiset{}, segs);
    RefUpFrame(AddSegs(t, multiset{}, segs), Seen(segs, []));
    forall e | 0 <= e < |t.led.bits| ensures Rose(t.led.live[e], AddObject(t, segs).led.live[e], SegSum(segs, e)) {
      AddSegsPlain(t, segs, e);
    }
  }

  lemma StoredShape(s: Ledger, ids: seq<nat>, skipped: set<nat>, ranges: seq<(nat, nat)>, segs: seq<Seg>)
    requires WellFormed(s) && MayTake(s, ids, skipped) && InRange(s, segs)
    ensures var r := Stored(s, ids, skipped, ranges, segs);
      && r.shared == s.shared && r.pins == s.pins
      && (forall e :: 0 <= e < |s.bits| ==> r.bits[e] == (s.bits[e] || e in skipped || e in ids))
      && forall e :: 0 <= e < |s.bits| ==> Rose(s.live[e], r.live[e], SegSum(segs, e))
  {
    TakeAllAt(Isolate(s, skipped), ids);
    AddedShape(Allocate(Txn(s, EMPTY_DRAFT), ids, skipped, ranges), segs);
  }

  lemma PutBytes(s: Ledger, r: Ledger, d: Staged, objs: seq<Object>, segs: seq<Seg>, e: nat)
    requires BytesInRange(s, r, e) && BytesBack(s, d, objs, [], e) && Rose(s.live[e], r.live[e], SegSum(segs, e))
    requires Bytes(Keys(objs + [segs]), e) == Bytes(Keys(objs), e) + SegSum(segs, e) < U32
    ensures BytesBack(r, d, objs + [segs], [], e)
  {
    var b, l := Bytes(Keys(objs), e) + SumFor([], e), SegSum(segs, e);
    RiseExact(s.live[e], r.live[e], Owed(d, e), b, l);
    assert b + l == Bytes(Keys(objs + [segs]), e) + SumFor([], e);
  }

  lemma PutExtent(s: Ledger, r: Ledger, d: Staged, objs: seq<Object>, segs: seq<Seg>, e: nat)
    requires BytesInRange(s, r, e) && BytesBack(s, d, objs, [], e) && BitBack(s, d, objs, [], e)
    requires Rose(s.live[e], r.live[e], SegSum(segs, e)) && (s.bits[e] ==> r.bits[e])
    requires Distinct(segs) && forall i :: 0 <= i < |segs| ==> segs[i] !in Keys(objs)
    requires Touches(segs, e) ==> r.bits[e] && e !in Ids(d)
    requires Bytes(Keys(objs + [segs]), e) < U32
    ensures BytesBack(r, d, objs + [segs], [], e) && BitBack(r, d, objs + [segs], [], e)
  {
    PutKeys(objs, segs);
    BytesAddAll(Keys(objs), segs, e);
    PutBytes(s, r, d, objs, segs, e);
    SegSumTouches(segs, e);
  }

  ghost predicate BytesInRange(s: Ledger, r: Ledger, e: nat) {
    WellFormed(s) && WellFormed(r) && e < |s.bits| == |r.bits|
  }

  lemma PutShare(s: Ledger, r: Ledger, d: Staged, objs: seq<Object>, segs: seq<Seg>, k: Seg)
    requires ShareBack(s, d, objs, k) && r.shared == s.shared
    requires Distinct(segs) && (k in segs ==> k !in Keys(objs))
    ensures ShareBack(r, d, objs + [segs], k)
  {
    HoldersAppend(objs, segs, k);
    DistinctCount(segs, k);
    HeldIffKey(objs, k);
  }

  /** New data in allocated extents never disturbs an open draft, as long as it keeps out of the extents
      that the draft itself has allocated. */
  lemma PutBeside(s: Ledger, d: Staged, objs: seq<Object>, ids: seq<nat>, skipped: set<nat>, ranges: seq<(nat, nat)>,
                  segs: seq<Seg>)
    requires Balanced(s, d, objs, []) && MayTake(s, ids, skipped)
    requires var w := Writer(s, objs, ids, skipped, ranges); PutLegal(w, segs, []) && InAllocated(w.txn.led, segs)
    requires forall i :: 0 <= i < |segs| ==> segs[i].ext !in Ids(d)
    ensures InRange(s, segs) && Balanced(Stored(s, ids, skipped, ranges, segs), d, objs + [segs], [])
  {
    var r, after := Stored(s, ids, skipped, ranges, segs), objs + [segs];
    StoredShape(s, ids, skipped, ranges, segs);
    TakeAllAt(Isolate(s, skipped), ids);
    AppendOk(|s.bits|, objs, segs);
    forall e | 0 <= e < |s.bits| ensures BytesBack(r, d, after, [], e) && BitBack(r, d, after, [], e) {
      BalancedAt(s, d, objs, [], e);
      assert Bytes(Keys(after), e) + SumFor([], e) < U32;
      PutExtent(s, r, d, objs, segs, e);
    }
    forall k ensures ShareBack(r, d, after, k) {
      assert ShareBack(s, d, objs, k);
      PutShare(s, r, d, objs, segs, k);
    }
  }

  /** In an extent that the draft itself has allocated, it would disturb it. */
  lemma PutOnOwn(s: Ledger, d: Staged, objs: seq<Object>, segs: seq<Seg>, i: nat)
    requires i < |segs| && segs[i].ext in Ids(d) && segs[i].len > 0
    ensures !Balanced(s, d, objs + [segs], [])
  {
    var after := objs + [segs];
    if Balanced(s, d, after, []) {
      assert after[|objs|] == segs && ObjectOk(|s.bits|, segs) && segs[i] in segs;
      assert segs[i] in Keys(after);
      BytesRemove(Keys(after), segs[i], segs[i].ext);
      BalancedAt(s, d, after, [], segs[i].ext);
    }
  }

  // ---------- freeing extents beside an open draft ----------

  /** Where only bits go, the open draft can still be undone if and only if it loses none that it needs. */
  lemma BitsIff(s: Ledger, r: Ledger, d: Staged, objs: seq<Object>)
    requires Balanced(s, d, objs, []) && WellFormed(r) && |r.bits| == |s.bits|
    requires r.live == s.live && r.shared == s.shared && forall e :: 0 <= e < |s.bits| && r.bits[e] ==> s.bits[e]
    ensures Balanced(r, d, objs, []) <==> Spares(s, r, d, objs)
  {
    forall e | 0 <= e < |s.bits|
      ensures BytesBack(r, d, objs, [], e)
      ensures BitBack(r, d, objs, [], e) <==> (s.bits[e] && !r.bits[e] && Bytes(Keys(objs), e) > 0 ==> e in d.cleared)
    {
      BalancedAt(s, d, objs, [], e);
    }
    forall k ensures ShareBack(r, d, objs, k) {
      assert ShareBack(s, d, objs, k);
    }
  }

  // ---------- the draft of a switch ----------

  /** What the draft of a switch records. */
  ghost predicate SwitchDraft(d: Staged, alloc: seq<(nat, nat)>, copies: seq<Seg>, gone: seq<Seg>, n: nat) {
    && d.sharedInc == [] && Ids(d) == Expand(alloc)
    && (forall k :: Count(d.sharedDec, k) <= Count(gone, k))
    && forall e :: 0 <= e < n ==> SumFor(d.liveInc, e) == SegSum(copies, e) && SumFor(d.liveDec, e) < U32
  }

  lemma {:induction false} ReleaseRecords(t: Txn, segs: seq<Seg>, e: nat, k: Seg)
    requires WellFormed(t.led) && InRange(t.led, segs) && e < |t.led.bits|
    ensures var r := ReleaseSegs(t, segs);
      && r.draft.liveInc == t.draft.liveInc
      && SumFor(r.draft.liveDec, e) + r.led.live[e] == SumFor(t.draft.liveDec, e) + t.led.live[e]
      && Count(r.draft.sharedDec, k) <= Count(t.draft.sharedDec, k) + Count(segs, k)
    decreases |segs|
  {
    if segs != [] {
      var x := segs[0];
      SumForAppend(t.draft.liveDec, (x.ext, x.len), e);
      CountAppend(t.draft.sharedDec, x, k);
      ReleaseRecords(ReleaseSeg(t, x), segs[1..], e, k);
    }
  }

  lemma MovedRecords(s: Ledger, alloc: seq<(nat, nat)>, copies: seq<Seg>, gone: seq<Seg>, e: nat, k: Seg)
    requires WellFormed(s) && InRange(s, copies) && InRange(s, gone) && e < |s.bits|
    ensures var d := Moved(s, alloc, copies, gone).draft;
      && SumFor(d.liveInc, e) == SegSum(copies, e) && SumFor(d.liveDec, e) < U32
      && Count(d.sharedDec, k) <= Count(gone, k)
  {
    var begin := Txn(s, EMPTY_DRAFT.(alloc := alloc));
    assert multiset(begin.draft.inflight) == multiset{};
    SeenInRange(s, copies, []);
    SeenInRange(s, gone, []);
    AddSegsFrame(begin, multiset{}, copies);
    AddSegsPlain(begin, copies, e);
    RefUpFrame(AddSegs(begin, multiset{}, copies), Seen(copies, []));
    var full := AddObject(begin, copies);
    ReleaseRecords(full, gone, e, k);
    RefDownFrame(ReleaseSegs(full, gone), Seen(gone, []));
  }

  lemma MovedDraft(s: Ledger, alloc: seq<(nat, nat)>, copies: seq<Seg>, gone: seq<Seg>)
    requires WellFormed(s) && InRange(s, copies) && InRange(s, gone) && Below(Expand(alloc), |s.bits|) && |s.bits| > 0
    ensures SwitchDraft(Moved(s, alloc, copies, gone).draft, alloc, copies, gone, |s.bits|)
  {
    MovedShape(s, alloc, copies, gone);
    var d := Moved(s, alloc, copies, gone).draft;
    forall k ensures Count(d.sharedDec, k) <= Count(gone, k) {
      MovedRecords(s, alloc, copies, gone, 0, k);
    }
    forall e | 0 <= e < |s.bits| ensures SumFor(d.liveInc, e) == SegSum(copies, e) && SumFor(d.liveDec, e) < U32 {
      MovedRecords(s, alloc, copies, gone, e, Seg(0, 0, 0));
    }
  }

  /** Opening a switch never puts its undo at risk. */
  lemma OpenBalanced(s: Ledger, objs: seq<Object>, alloc: seq<(nat, nat)>, copies: seq<Seg>, gone: seq<Seg>)
    requires SpaceAccounts(s, objs, []) && InRange(s, copies) && InRange(s, gone) && Below(Expand(alloc), |s.bits|)
    requires forall e :: e in Expand(alloc) && e < |s.bits| ==> s.live[e] == 0
    ensures var t := Moved(s, alloc, copies, gone);
      && DraftInRange(t.led, t.draft)
      && Balanced(Settle(t.led, t.draft.cleared), t.draft, objs, [])
  {
    MovedShape(s, alloc, copies, gone);
    var t := Moved(s, alloc, copies, gone);
    UndoneAccounts(s, objs, alloc, copies, gone);
    BalancedIff(Settle(t.led, t.draft.cleared), t.draft, objs, []);
  }

  // ---------- what others can do to an open switch ----------

  /** One planned segment `k`, copied to other extents. */
  ghost predicate Opens(s: Ledger, alloc: seq<(nat, nat)>, copies: seq<Seg>, k: Seg) {
    && WellFormed(s) && InRange(s, copies) && k.ext < |s.bits| && Below(Expand(alloc), |s.bits|)
    && !Touches(copies, k.ext) && k.ext !in Expand(alloc) && s.pins[k.ext] == 0 && k.len > 0
  }

  function WindowLedger(s: Ledger, alloc: seq<(nat, nat)>, copies: seq<Seg>, k: Seg): (r: Ledger)
    requires WellFormed(s) && InRange(s, copies) && k.ext < |s.bits| && Below(Expand(alloc), |s.bits|)
    ensures WellFormed(r) && |r.bits| == |s.bits|
  {
    Committed(s, alloc, copies, [k])
  }

  function WindowDraft(s: Ledger, alloc: seq<(nat, nat)>, copies: seq<Seg>, k: Seg): Staged
    requires WellFormed(s) && InRange(s, copies) && k.ext < |s.bits|
  {
    Moved(s, alloc, copies, [k]).draft
  }

  /** Adding the copies changes nothing on the extent of `k`. */
  lemma AddedElsewhere(s: Ledger, alloc: seq<(nat, nat)>, copies: seq<Seg>, k: Seg)
    requires Opens(s, alloc, copies, k)
    ensures var full := AddObject(Txn(s, EMPTY_DRAFT.(alloc := alloc)), copies);
      && full.led.shared == s.shared && full.led.live[k.ext] == s.live[k.ext] && full.led.bits == s.bits
      && full.led.pins == s.pins && full.draft.cleared == [] && full.draft.sharedDec == [] && full.draft.liveDec == []
      && SumFor(full.draft.liveInc, k.ext) == 0
  {
    var begin := Txn(s, EMPTY_DRAFT.(alloc := alloc));
    assert multiset(begin.draft.inflight) == multiset{};
    AddedShape(begin, copies);
    AddSegsPlain(begin, copies, k.ext);
    SegSumTouches(copies, k.ext);
    SeenInRange(s, copies, []);
    AddSegsFrame(begin, multiset{}, copies);
    RefUpFrame(AddSegs(begin, multiset{}, copies), Seen(copies, []));
    RoseNothing(s.live[k.ext], AddObject(begin, copies).led.live[k.ext]);
  }

  /** Releasing the one segment, by the branch that its table entry takes. */
  lemma ReleaseByEntry(t: Txn, k: Seg)
    requires WellFormed(t.led) && k.ext < |t.led.bits|
    ensures var u, m, live := ReleaseObject(t, [k]), Entry(t.led.shared, k), t.led.live[k.ext];
      && Entry(u.led.shared, k) == Released(m)
      && u.draft.sharedDec == t.draft.sharedDec + (if m > 0 then [k] else [])
      && u.led.live[k.ext] == (if m > 1 || live < k.len then live else live - k.len)
      && u.draft.liveInc == t.draft.liveInc
      && u.draft.liveDec == t.draft.liveDec + (if m > 1 || live < k.len then [] else [(k.ext, k.len)])
      && u.draft.cleared == t.draft.cleared + (if m > 1 || live != k.len then [] else [k.ext])
  {
    assert [k][1..] == [];
    SeenInRange(t.led, [k], []);
    assert ReleaseSegs(t, [k]) == ReleaseSegs(ReleaseSeg(t, k), []) == ReleaseSeg(t, k);
    RefDownFrame(ReleaseSegs(t, [k]), Seen([k], []));
  }

  /** What the draft of the switch has done to segment `k` of entry `m`, of an extent with `live` bytes. */
  ghost predicate Took(d: Staged, k: Seg, m: nat, live: nat) {
    && d.sharedInc == [] && d.sharedDec == (if m > 0 then [k] else [])
    && SumFor(d.liveInc, k.ext) == 0 && d.liveDec == (if m > 1 then [] else [(k.ext, k.len)])
    && d.cleared == if m <= 1 && live == k.len then [k.ext] else []
  }

  lemma OpenMoved(s: Ledger, alloc: seq<(nat, nat)>, copies: seq<Seg>, k: Seg)
    requires Opens(s, alloc, copies, k) && s.live[k.ext] >= k.len
    ensures var t, m := Moved(s, alloc, copies, [k]), Entry(s.shared, k);
      && DraftInRange(t.led, t.draft) && Ids(t.draft) == Expand(alloc) && Took(t.draft, k, m, s.live[k.ext])
      && Entry(t.led.shared, k) == Released(m) && t.led.pins == s.pins && t.led.bits == s.bits
      && t.led.live[k.ext] == (if m > 1 then s.live[k.ext] else s.live[k.ext] - k.len)
  {
    AddedElsewhere(s, alloc, copies, k);
    ReleaseByEntry(AddObject(Txn(s, EMPTY_DRAFT.(alloc := alloc)), copies), k);
    MovedShape(s, alloc, copies, [k]);
  }

  lemma OpenOne(s: Ledger, alloc: seq<(nat, nat)>, copies: seq<Seg>, k: Seg)
    requires Opens(s, alloc, copies, k) && s.live[k.ext] >= k.len
    ensures var r, d, m := WindowLedger(s, alloc, copies, k), WindowDraft(s, alloc, copies, k), Entry(s.shared, k);
      && DraftInRange(r, d) && k.ext !in Ids(d) && Took(d, k, m, s.live[k.ext])
      && Entry(r.shared, k) == Released(m) && r.pins == s.pins
      && r.live[k.ext] == (if m > 1 then s.live[k.ext] else s.live[k.ext] - k.len)
      && r.bits[k.ext] == (s.bits[k.ext] && r.live[k.ext] > 0)
  {
    OpenMoved(s, alloc, copies, k);
    var t := Moved(s, alloc, copies, [k]);
    SettleAt(t.led, t.draft.cleared);
  }

  /** The rollback of such a draft on any later ledger. */
  lemma RollbackOne(s: Ledger, d: Staged, k: Seg, m: nat, live: nat)
    requires WellFormed(s) && DraftInRange(s, d) && k.ext < |s.bits| && k.ext !in Ids(d) && Took(d, k, m, live)
    requires m <= 1 ==> s.live[k.ext] + k.len < U32
    ensures var r := Rollback(s, d);
      && Entry(r.shared, k) == Entry(s.shared, k) + (if m > 0 then 1 else 0)
      && r.live[k.ext] == s.live[k.ext] + (if m > 1 then 0 else k.len)
      && r.bits[k.ext] == (s.bits[k.ext] || (m <= 1 && live == k.len)) && r.pins == s.pins
  {
    RollbackShape(s, d);
    RollbackCounters(s, d, k.ext);
    assert Entry(Rollback(s, d).shared, k) == EntryBack(s, d, k);
    assert [k][1..] == [] && [(k.ext, k.len)][1..] == [];
    assert SumFor([(k.ext, k.len)], k.ext) == k.len + SumFor([], k.ext);
    var x := s.live[k.ext] + (if m > 1 then 0 else k.len);
    assert s.live[k.ext] + Owed(d, k.ext) == x;
    ModOf(x, x, 0);
  }

  lemma FreedByEntry(s: Ledger, k: Seg)
    requires WellFormed(s) && k.ext < |s.bits| && s.pins[k.ext] == 0
    ensures var r, m, live := Freed(s, [k]), Entry(s.shared, k), s.live[k.ext];
      && r.pins == s.pins && Entry(r.shared, k) == Released(m)
      && r.live[k.ext] == (if m > 1 || live < k.len then live else live - k.len)
      && (m <= 1 && live == k.len ==> !r.bits[k.ext])
      && forall e :: 0 <= e < |s.bits| && e != k.ext ==> r.live[e] == s.live[e] && r.bits[e] == s.bits[e]
  {
    var t := Txn(s, EMPTY_DRAFT);
    ReleaseByEntry(t, k);
    ReleaseInRange(s, [k]);
    var u := ReleaseObject(t, [k]);
    SettleAt(u.led, u.draft.cleared);
    forall e | 0 <= e < |s.bits| && e != k.ext ensures u.led.live[e] == s.live[e] && e !in u.draft.cleared {
      SeenInRange(s, [k], []);
      ReleaseElsewhere(t, [k], e);
      RefDownFrame(ReleaseSegs(t, [k]), Seen([k], []));
    }
  }

  /** Two objects share segment `k`. The switch of the first is open; somebody deletes the first, and the
      switch fails. The second, which nobody touched, then lies in a free extent. */
  lemma BystanderIsLost(s: Ledger, alloc: seq<(nat, nat)>, copies: seq<Seg>, k: Seg)
    requires Opens(s, alloc, copies, k) && Entry(s.shared, k) == 2 && s.live[k.ext] == k.len
    ensures var deleted, d := Freed(WindowLedger(s, alloc, copies, k), [k]), WindowDraft(s, alloc, copies, k);
      && DraftInRange(deleted, d)
      && var r := Rollback(deleted, d);
         !r.bits[k.ext] && Entry(r.shared, k) == 1 && r.live[k.ext] == 0 && MayTake(r, [k.ext], {})
  {
    OpenOne(s, alloc, copies, k);
    var early := WindowLedger(s, alloc, copies, k);
    FreedByEntry(early, k);
    RollbackOne(Freed(early, [k]), WindowDraft(s, alloc, copies, k), k, 2, k.len);
  }

  /** Segment `k` is alone with segment `m` of another object in its extent. The switch of `k` is open;
      somebody deletes the other object, which empties the extent; and the switch fails. The object of `k`
      then lies in a free extent, though nobody released or took anything of it. */
  lemma EmptiedByAnother(s: Ledger, alloc: seq<(nat, nat)>, copies: seq<Seg>, k: Seg, m: Seg)
    requires Opens(s, alloc, copies, k) && m.ext == k.ext && m != k && m.len > 0
    requires s.shared == map[] && s.live[k.ext] == k.len + m.len
    ensures var deleted, d := Freed(WindowLedger(s, alloc, copies, k), [m]), WindowDraft(s, alloc, copies, k);
      && DraftInRange(deleted, d)
      && var r := Rollback(deleted, d);
         !r.bits[k.ext] && r.live[k.ext] == k.len && MayTake(r, [k.ext], {})
  {
    OpenOne(s, alloc, copies, k);
    var early := WindowLedger(s, alloc, copies, k);
    MovedUnshared(s, alloc, copies, k);
    FreedByEntry(early, m);
    RollbackOne(Freed(early, [m]), WindowDraft(s, alloc, copies, k), k, 0, k.len + m.len);
  }

  lemma MovedUnshared(s: Ledger, alloc: seq<(nat, nat)>, copies: seq<Seg>, k: Seg)
    requires Opens(s, alloc, copies, k) && s.shared == map[]
    ensures WindowLedger(s, alloc, copies, k).shared == map[]
  {
    var begin := Txn(s, EMPTY_DRAFT.(alloc := alloc));
    AddedElsewhere(s, alloc, copies, k);
    var full := AddObject(begin, copies);
    MovedShape(s, alloc, copies, [k]);
    assert [k][1..] == [];
    SeenInRange(s, [k], []);
    assert ReleaseSegs(full, [k]) == ReleaseSegs(ReleaseSeg(full, k), []) == DecLive(full, k.ext, k.len);
    RefDownFrame(ReleaseSegs(full, [k]), Seen([k], []));
    var t := Moved(s, alloc, copies, [k]);
    SettleAt(t.led, t.draft.cleared);
  }

  /** Somebody copies the object while its switch is open, and the switch commits: the copy still refers
      to the planned segment, which lies in a free extent. */
  lemma CopyOfTheSwitched(s: Ledger, alloc: seq<(nat, nat)>, copies: seq<Seg>, k: Seg)
    requires Opens(s, alloc, copies, k) && s.shared == map[] && s.live[k.ext] == k.len
    ensures var r := ShareObject(Txn(WindowLedger(s, alloc, copies, k), EMPTY_DRAFT), [k]).led;
      !r.bits[k.ext] && Entry(r.shared, k) == 2 && r.live[k.ext] == 0 && MayTake(r, [k.ext], {})
  {
    OpenOne(s, alloc, copies, k);
    CopyShape(WindowLedger(s, alloc, copies, k), [k]);
  }
}
