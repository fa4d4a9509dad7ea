/** The allocator's side of a compaction switch: one draft adds the copies and releases the segments
    that they replace.

    Unlike the engine's drafts it may add to an extent that is not allocated any more, and release
    segments that nobody holds any more. */
module CompactionLedgers {
  import opened Ledgers
  import opened Rollbacks
  import opened Holdings
  import opened Runs

  /** The draft of a switch; the first one of a batch carries the target's allocation. */
  function Moved(s: Ledger, alloc: seq<(nat, nat)>, copies: seq<Seg>, gone: seq<Seg>): (t: Txn)
    requires WellFormed(s) && InRange(s, copies) && InRange(s, gone)
    ensures WellFormed(t.led) && |t.led.bits| == |s.bits|
  {
    ReleaseObject(AddObject(Txn(s, EMPTY_DRAFT.(alloc := alloc)), copies), gone)
  }

  lemma MovedShape(s: Ledger, alloc: seq<(nat, nat)>, copies: seq<Seg>, gone: seq<Seg>)
    requires WellFormed(s) && InRange(s, copies) && InRange(s, gone) && Below(Expand(alloc), |s.bits|)
    ensures var t := Moved(s, alloc, copies, gone);
      && DraftInRange(t.led, t.draft)
      && t.led == s.(live := t.led.live, refcounts := t.led.refcounts, shared := t.led.shared)
      && t.draft.alloc == alloc && t.draft.sharedInc == []
  {
    var begin := Txn(s, EMPTY_DRAFT.(alloc := alloc));
    SeenInRange(s, copies, []);
    SeenInRange(s, gone, []);
    AddSegsFrame(begin, multiset{}, copies);
    AddSegsRange(begin, multiset{}, copies);
    assert multiset(begin.draft.inflight) == multiset{};
    var added := AddSegs(begin, multiset{}, copies);
    RefUpFrame(added, Seen(copies, []));
    RefUpRange(added, Seen(copies, []));
    var full := RefUp(added, Seen(copies, []));
    ReleaseSegsFrame(full, gone);
    ReleaseKeepsShared(full, gone);
    var less := ReleaseSegs(full, gone);
    RefDownFrame(less, Seen(gone, []));
    RefDownRange(less, Seen(gone, []));
  }

  lemma {:induction false} ReleaseKeepsShared(t: Txn, segs: seq<Seg>)
    requires WellFormed(t.led) && InRange(t.led, segs)
    ensures ReleaseSegs(t, segs).draft.sharedInc == t.draft.sharedInc
    decreases |segs|
  {
    if segs != [] {
      ReleaseKeepsShared(ReleaseSeg(t, segs[0]), segs[1..]);
    }
  }

  // ---------- the undo of a switch ----------

  lemma {:induction false} AddSegsCounters(s0: Ledger, t: Txn, pre: multiset<(nat, nat)>, segs: seq<Seg>, e: nat)
    requires CountersKept(s0, t, e) && InRange(t.led, segs)
    ensures CountersKept(s0, AddSegs(t, pre, segs), e)
    decreases |segs|
  {
    if segs != [] {
      var key := (segs[0].ext, segs[0].len);
      if key in pre {
        AddSegsCounters(s0, t, pre - multiset{key}, segs[1..], e);
      } else {
        GainLiveCounters(s0, t, key, e);
        AddSegsCounters(s0, GainLive(t, key), pre, segs[1..], e);
      }
    }
  }

  lemma {:induction false} RefUpCounters(s0: Ledger, t: Txn, ids: seq<nat>, e: nat)
    requires CountersKept(s0, t, e) && Below(ids, |t.led.bits|)
    ensures CountersKept(s0, RefUp(t, ids), e)
    decreases |ids|
  {
    if ids != [] {
      RefUpOneCounters(s0, t, ids[0], e);
      RefUpCounters(s0, RefUpOne(t, ids[0]), ids[1..], e);
    }
  }

  lemma {:induction false} ReleaseSegsCounters(s0: Ledger, t: Txn, segs: seq<Seg>, e: nat)
    requires CountersKept(s0, t, e) && InRange(t.led, segs)
    ensures CountersKept(s0, ReleaseSegs(t, segs), e)
    decreases |segs|
  {
    if segs != [] {
      var k := segs[0];
      if k in t.led.shared && t.led.shared[k] <= 1 {
        var r := Txn(t.led.(shared := t.led.shared - {k}), t.draft.(sharedDec := t.draft.sharedDec + [k]));
        DecLiveCounters(s0, r, k.ext, k.len, e);
      } else if k !in t.led.shared {
        DecLiveCounters(s0, t, k.ext, k.len, e);
      }
      ReleaseSegsCounters(s0, ReleaseSeg(t, k), segs[1..], e);
    }
  }

  lemma {:induction false} RefDownCounters(s0: Ledger, t: Txn, ids: seq<nat>, e: nat)
    requires CountersKept(s0, t, e) && Below(ids, |t.led.bits|)
    ensures CountersKept(s0, RefDown(t, ids), e)
    decreases |ids|
  {
    if ids != [] {
      var x := ids[0];
      if t.led.refcounts[x] == 0 {
        RefDownCounters(s0, t, ids[1..], e);
      } else {
        var r := Txn(t.led.(refcounts := t.led.refcounts[x := t.led.refcounts[x] - 1]),
                     t.draft.(refcountDec := t.draft.refcountDec + [x]));
        CountAppend(t.draft.refcountDec, x, e);
        if x == e {
          ModDrop((s0.refcounts[e] + Count(t.draft.refcountInc, e)) as int - Count(t.draft.refcountDec, e), 1);
        }
        RefDownCounters(s0, r, ids[1..], e);
      }
    }
  }

  lemma MovedCounters(s: Ledger, alloc: seq<(nat, nat)>, copies: seq<Seg>, gone: seq<Seg>, e: nat)
    requires WellFormed(s) && InRange(s, copies) && InRange(s, gone) && e < |s.bits|
    ensures CountersKept(s, Moved(s, alloc, copies, gone), e)
  {
    var begin := Txn(s, EMPTY_DRAFT.(alloc := alloc));
    SeenInRange(s, copies, []);
    SeenInRange(s, gone, []);
    AddSegsCounters(s, begin, multiset(begin.draft.inflight), copies, e);
    RefUpCounters(s, AddSegs(begin, multiset(begin.draft.inflight), copies), Seen(copies, []), e);
    var full := AddObject(begin, copies);
    ReleaseSegsCounters(s, full, gone, e);
    RefDownCounters(s, ReleaseSegs(full, gone), Seen(gone, []), e);
  }

  lemma MovedShares(s: Ledger, alloc: seq<(nat, nat)>, copies: seq<Seg>, gone: seq<Seg>, k: Seg)
    requires WellFormed(s) && InRange(s, copies) && InRange(s, gone)
    ensures ShareTracks(s, Moved(s, alloc, copies, gone), k)
  {
    var begin := Txn(s, EMPTY_DRAFT.(alloc := alloc));
    SeenInRange(s, copies, []);
    SeenInRange(s, gone, []);
    AddSegsFrame(begin, multiset(begin.draft.inflight), copies);
    RefUpFrame(AddSegs(begin, multiset(begin.draft.inflight), copies), Seen(copies, []));
    var full := AddObject(begin, copies);
    assert ShareTracks(s, full, k);
    ReleaseSegsKey(s, full, gone, k);
    RefDownFrame(ReleaseSegs(full, gone), Seen(gone, []));
  }

  /** The ledger after a switch that failed behind its commit point. */
  function Undone(s: Ledger, alloc: seq<(nat, nat)>, copies: seq<Seg>, gone: seq<Seg>): (r: Ledger)
    requires WellFormed(s) && InRange(s, copies) && InRange(s, gone) && Below(Expand(alloc), |s.bits|)
    ensures WellFormed(r) && |r.bits| == |s.bits|
  {
    MovedShape(s, alloc, copies, gone);
    var t := Moved(s, alloc, copies, gone);
    Rollback(Settle(t.led, t.draft.cleared), t.draft)
  }

  lemma UndoneEntry(s: Ledger, t: Txn, k: Seg)
    requires WellFormed(t.led) && DraftInRange(t.led, t.draft) && ShareTracks(s, t, k) && t.draft.sharedInc == []
    ensures KeepsEntry(s.shared, Rollback(Settle(t.led, t.draft.cleared), t.draft).shared, k)
  {
    SettleAt(t.led, t.draft.cleared);
    var mid := Settle(t.led, t.draft.cleared);
    UnclearAt(mid, t.draft.cleared);
    UnallocateAt(Unclear(mid, t.draft.cleared), Ids(t.draft));
    UndoShares(s, t, k);
  }

  /** A failed switch gives back every byte, count and share entry, and every bit but that of the
      target when it carried its allocation: even after the target was freed, and even when the
      segments it released have been handed to somebody else. */
  lemma SwitchIsUndone(s: Ledger, alloc: seq<(nat, nat)>, copies: seq<Seg>, gone: seq<Seg>)
    requires WellFormed(s) && InRange(s, copies) && InRange(s, gone) && Below(Expand(alloc), |s.bits|)
    ensures var r := Undone(s, alloc, copies, gone);
      && r.live == s.live && r.refcounts == s.refcounts && r.pins == s.pins
      && (forall k :: KeepsEntry(s.shared, r.shared, k))
      && (forall e :: 0 <= e < |s.bits| && e in Expand(alloc) ==> !r.bits[e])
      && (forall e :: 0 <= e < |s.bits| && e !in Expand(alloc) && s.bits[e] ==> r.bits[e])
  {
    MovedShape(s, alloc, copies, gone);
    var t := Moved(s, alloc, copies, gone);
    SettleAt(t.led, t.draft.cleared);
    var mid := Settle(t.led, t.draft.cleared);
    UnclearAt(mid, t.draft.cleared);
    UnallocateAt(Unclear(mid, t.draft.cleared), Ids(t.draft));
    forall e | 0 <= e < |s.bits| ensures CountersKept(s, t, e) {
      MovedCounters(s, alloc, copies, gone, e);
    }
    UndoCounters(s, t);
    forall k ensures KeepsEntry(s.shared, Undone(s, alloc, copies, gone).shared, k) {
      MovedShares(s, alloc, copies, gone, k);
      UndoneEntry(s, t, k);
    }
  }

  /** A ledger with the bytes and entries of another, and its bits where anything lies. */
  lemma BackAccounts(s: Ledger, r: Ledger, objs: seq<Object>)
    requires SpaceAccounts(s, objs, []) && WellFormed(r) && |r.bits| == |s.bits| && r.live == s.live
    requires forall k :: KeepsEntry(s.shared, r.shared, k)
    requires forall e :: 0 <= e < |s.bits| && s.bits[e] && s.live[e] > 0 ==> r.bits[e]
    ensures SpaceAccounts(r, objs, [])
  {
    forall e | 0 <= e < |r.bits| ensures LiveAccounts(r, objs, [], e) {
      assert LiveAccounts(s, objs, [], e);
    }
    forall k ensures KeyAccounts(r, objs, k) {
      assert KeyAccounts(s, objs, k) && KeepsEntry(s.shared, r.shared, k);
    }
  }

  lemma UndoneAccounts(s: Ledger, objs: seq<Object>, alloc: seq<(nat, nat)>, copies: seq<Seg>, gone: seq<Seg>)
    requires SpaceAccounts(s, objs, []) && InRange(s, copies) && InRange(s, gone) && Below(Expand(alloc), |s.bits|)
    requires forall e :: e in Expand(alloc) && e < |s.bits| ==> s.live[e] == 0
    ensures SpaceAccounts(Undone(s, alloc, copies, gone), objs, [])
  {
    SwitchIsUndone(s, alloc, copies, gone);
    BackAccounts(s, Undone(s, alloc, copies, gone), objs);
  }

  // ---------- a switch that commits ----------

  /** `after` is object `obj` with the segments `gone` replaced by `copies`. */
  ghost predicate Replaces(obj: Object, copies: Object, gone: Object, after: Object) {
    && Distinct(gone) && (forall k :: k in gone ==> k in obj)
    && forall k :: k in after <==> (k in obj && k !in gone) || k in copies
  }

  /** What the metadata owes a switch that commits. */
  ghost predicate SwitchOk(s: Ledger, objs: seq<Object>, i: nat, copies: Object, gone: Object, after: Object) {
    && i < |objs| && ObjectOk(|s.bits|, copies) && ObjectOk(|s.bits|, after)
    && Replaces(objs[i], copies, gone, after)
    && (forall j :: 0 <= j < |copies| ==> copies[j] !in Keys(objs))
    && Fits(|s.bits|, Keys(objs + [copies]), [])
  }

  /** The ledger after a switch that committed. */
  function Committed(s: Ledger, alloc: seq<(nat, nat)>, copies: seq<Seg>, gone: seq<Seg>): (r: Ledger)
    requires WellFormed(s) && InRange(s, copies) && InRange(s, gone) && Below(Expand(alloc), |s.bits|)
    ensures WellFormed(r) && |r.bits| == |s.bits|
  {
    MovedShape(s, alloc, copies, gone);
    var t := Moved(s, alloc, copies, gone);
    Settle(t.led, t.draft.cleared)
  }

  lemma CommittedShape(s: Ledger, alloc: seq<(nat, nat)>, copies: seq<Seg>, gone: seq<Seg>)
    requires WellFormed(s) && InRange(s, copies) && InRange(s, gone) && Below(Expand(alloc), |s.bits|)
    ensures var t, r := Moved(s, alloc, copies, gone).led, Committed(s, alloc, copies, gone);
      && r.live == t.live && r.shared == t.shared && r.pins == s.pins
      && forall e :: 0 <= e < |s.bits| ==>
           (r.bits[e] ==> s.bits[e]) && (s.bits[e] && !r.bits[e] ==> r.live[e] == 0)
  {
    MovedShape(s, alloc, copies, gone);
    var t := Moved(s, alloc, copies, gone);
    SettleAt(t.led, t.draft.cleared);
  }

  // ---------- the transactions of others ----------

  /** The ledger after an object was written: extents taken for it, its segments added. */
  function Stored(s: Ledger, ids: seq<nat>, skipped: set<nat>, ranges: seq<(nat, nat)>, segs: seq<Seg>): (r: Ledger)
    requires WellFormed(s) && Below(ids, |s.bits|) && InRange(s, segs)
    ensures WellFormed(r) && |r.bits| == |s.bits|
  {
    AddObject(Allocate(Txn(s, EMPTY_DRAFT), ids, skipped, ranges), segs).led
  }

  /** Who writes, and into what: the draft after its allocation. */
  function Writer(s: Ledger, objs: seq<Object>, ids: seq<nat>, skipped: set<nat>, ranges: seq<(nat, nat)>): (w: World)
    requires WellFormed(s) && Below(ids, |s.bits|)
  {
    World(Allocate(Txn(s, EMPTY_DRAFT), ids, skipped, ranges), objs, false)
  }

  lemma StoredAccounts(s: Ledger, objs: seq<Object>, ids: seq<nat>, skipped: set<nat>, ranges: seq<(nat, nat)>,
                       segs: seq<Seg>)
    requires SpaceAccounts(s, objs, []) && MayTake(s, ids, skipped)
    requires var w := Writer(s, objs, ids, skipped, ranges); PutLegal(w, segs, []) && InAllocated(w.txn.led, segs)
    ensures InRange(s, segs)
    ensures var r, took := Stored(s, ids, skipped, ranges, segs), Writer(s, objs, ids, skipped, ranges).txn.led;
      && SpaceAccounts(r, objs + [segs], []) && r.pins == s.pins && r.bits == took.bits
      && forall e :: 0 <= e < |s.bits| ==> r.bits[e] == (s.bits[e] || e in skipped || e in ids)
  {
    TakeAllAt(Isolate(s, skipped), ids);
    var w := Writer(s, objs, ids, skipped, ranges);
    MoreSpace(s, w.txn.led, objs, []);
    assert Noted(w) + [] == [];
    PutSpace(w, segs, []);
    SeenInRange(s, segs, []);
    AddSegsFrame(w.txn, multiset(w.txn.draft.inflight), segs);
    RefUpFrame(AddSegs(w.txn, multiset(w.txn.draft.inflight), segs), Seen(segs, []));
  }

  lemma ShareKeepsBits(s: Ledger, segs: seq<Seg>)
    requires WellFormed(s) && InRange(s, segs)
    ensures var r := ShareObject(Txn(s, EMPTY_DRAFT), segs).led;
      r == s.(refcounts := r.refcounts, shared := r.shared)
  {
    var t := Txn(s, EMPTY_DRAFT);
    SeenInRange(s, segs, []);
    ShareSegsFrame(t, segs);
    RefUpFrame(ShareSegs(t, segs), Seen(segs, []));
  }

  lemma ReleaseInRange(s: Ledger, segs: seq<Seg>)
    requires WellFormed(s) && InRange(s, segs)
    ensures var t := ReleaseObject(Txn(s, EMPTY_DRAFT), segs);
      && Below(t.draft.cleared, |t.led.bits|)
      && t.led == s.(live := t.led.live, refcounts := t.led.refcounts, shared := t.led.shared)
  {
    var t := Txn(s, EMPTY_DRAFT);
    SeenInRange(s, segs, []);
    ReleaseSegsFrame(t, segs);
    RefDownFrame(ReleaseSegs(t, segs), Seen(segs, []));
  }

  /** The ledger after an object was deleted. */
  function Freed(s: Ledger, segs: seq<Seg>): (r: Ledger)
    requires WellFormed(s) && InRange(s, segs)
    ensures WellFormed(r) && |r.bits| == |s.bits|
  {
    ReleaseInRange(s, segs);
    var t := ReleaseObject(Txn(s, EMPTY_DRAFT), segs);
    Settle(t.led, t.draft.cleared)
  }

  lemma FreedAccounts(s: Ledger, objs: seq<Object>, i: nat)
    requires SpaceAccounts(s, objs, []) && i < |objs| && InRange(s, objs[i])
    ensures var r := Freed(s, objs[i]);
      && SpaceAccounts(r, objs[i := []], []) && r.pins == s.pins
      && forall e :: 0 <= e < |s.bits| && r.bits[e] ==> s.bits[e]
  {
    var t := ReleaseObject(Txn(s, EMPTY_DRAFT), objs[i]);
    ReleaseInRange(s, objs[i]);
    DeleteSpace(Txn(s, EMPTY_DRAFT), objs, i, []);
    SettleAt(t.led, t.draft.cleared);
    MoreSpace(t.led, Freed(s, objs[i]), objs[i := []], []);
  }

  lemma FreedElsewhere(s: Ledger, segs: seq<Seg>, e: nat)
    requires WellFormed(s) && InRange(s, segs) && e < |s.bits|
    requires forall i :: 0 <= i < |segs| ==> segs[i].ext != e
    ensures Freed(s, segs).bits[e] == s.bits[e]
  {
    var t := Txn(s, EMPTY_DRAFT);
    SeenInRange(s, segs, []);
    ReleaseInRange(s, segs);
    ReleaseElsewhere(t, segs, e);
    RefDownFrame(ReleaseSegs(t, segs), Seen(segs, []));
    var u := ReleaseObject(t, segs);
    SettleAt(u.led, u.draft.cleared);
  }

  lemma {:induction false} ReleaseElsewhere(t: Txn, segs: seq<Seg>, e: nat)
    requires WellFormed(t.led) && InRange(t.led, segs) && e < |t.led.bits|
    requires forall i :: 0 <= i < |segs| ==> segs[i].ext != e
    ensures ReleaseSegs(t, segs).led.live[e] == t.led.live[e]
    ensures e in ReleaseSegs(t, segs).draft.cleared ==> e in t.draft.cleared
    decreases |segs|
  {
    if segs != [] {
      ReleaseElsewhere(ReleaseSeg(t, segs[0]), segs[1..], e);
    }
  }

  // ---------- a switch onto an extent that was freed ----------

  lemma NothingOnFreeExtent(s: Ledger, objs: seq<Object>, e: nat)
    requires SpaceAccounts(s, objs, []) && e < |s.bits| && (!s.bits[e] || s.live[e] == 0)
    ensures s.live[e] == 0 && forall k :: k in Keys(objs) ==> k.ext != e
  {
    assert LiveAccounts(s, objs, [], e);
    forall k | k in Keys(objs) ensures k.len > 0 {
      KeyOk(|s.bits|, objs, k);
    }
    NoBytesNoKey(Keys(objs), e);
  }

  /** A switch that commits onto a free extent leaves live bytes on it, and its bit stays clear. */
  lemma SwitchOntoFreeExtent(s: Ledger, objs: seq<Object>, i: nat, alloc: seq<(nat, nat)>,
                             copies: Object, gone: Object, after: Object, j: nat)
    requires SpaceAccounts(s, objs, []) && SwitchOk(s, objs, i, copies, gone, after)
    requires InRange(s, copies) && InRange(s, gone) && Below(Expand(alloc), |s.bits|)
    requires j < |copies| && !s.bits[copies[j].ext]
    ensures var r := Committed(s, alloc, copies, gone);
      !r.bits[copies[j].ext] && r.live[copies[j].ext] > 0
  {
    var begin, e := Txn(s, EMPTY_DRAFT.(alloc := alloc)), copies[j].ext;
    assert Noted(World(begin, objs, false)) + [] == [];
    PutOnFreeExtent(World(begin, objs, false), copies, [], j);
    var full := AddObject(begin, copies);
    NothingOnFreeExtent(s, objs, e);
    forall x | 0 <= x < |gone| ensures gone[x].ext != e {
      assert gone[x] in objs[i] && gone[x] in Keys(objs);
    }
    ReleaseElsewhere(full, gone, e);
    SeenInRange(s, gone, []);
    RefDownFrame(ReleaseSegs(full, gone), Seen(gone, []));
    MovedShape(s, alloc, copies, gone);
    CommittedShape(s, alloc, copies, gone);
  }

  // ---------- the smallest failing run ----------

  /** Extent 0 is the target of a batch; extent 1 holds two objects of one segment each. */
  const TWO_OBJECTS := Ledger([true, true], [0, 2], [1, 1], [0, 8192], [Open, Sealed], map[], [0, 0], {}, 2, 0)

  lemma MovedOne(s: Ledger, alloc: seq<(nat, nat)>, copy: Seg, k: Seg)
    requires WellFormed(s) && copy.ext < |s.bits| && k.ext < |s.bits| && copy.ext != k.ext && s.shared == map[]
    requires s.live[copy.ext] + copy.len < U32 && s.live[k.ext] >= k.len
    ensures var t := Moved(s, alloc, [copy], [k]);
      && t.led.live == s.live[copy.ext := s.live[copy.ext] + copy.len][k.ext := s.live[k.ext] - k.len]
      && t.led.shared == map[]
      && t.draft.cleared == if s.live[k.ext] == k.len then [k.ext] else []
  {
    var begin := Txn(s, EMPTY_DRAFT.(alloc := alloc));
    AddOne(begin, copy);
    ReleaseUnshared(AddObject(begin, [copy]), k);
  }

  lemma CommittedOne(s: Ledger, alloc: seq<(nat, nat)>, copy: Seg, k: Seg)
    requires WellFormed(s) && copy.ext < |s.bits| && k.ext < |s.bits| && copy.ext != k.ext
    requires Below(Expand(alloc), |s.bits|) && s.shared == map[]
    requires s.live[copy.ext] + copy.len < U32 && s.live[k.ext] >= k.len
    ensures var r := Committed(s, alloc, [copy], [k]);
      && r.live == s.live[copy.ext := s.live[copy.ext] + copy.len][k.ext := s.live[k.ext] - k.len]
      && r.shared == map[] && r.pins == s.pins && r.bits[copy.ext] == s.bits[copy.ext]
  {
    MovedOne(s, alloc, copy, k);
    MovedShape(s, alloc, [copy], [k]);
    var t := Moved(s, alloc, [copy], [k]);
    SettleAt(t.led, t.draft.cleared);
  }

  /** Deleting the only object of an extent frees it. */
  lemma FreedOne(s: Ledger, k: Seg)
    requires WellFormed(s) && k.ext < |s.bits| && s.shared == map[] && s.live[k.ext] == k.len
    ensures var r := Freed(s, [k]);
      && r.live == s.live[k.ext := 0] && r.shared == map[] && r.pins == s.pins
      && r.bits == if s.pins[k.ext] == 0 then s.bits[k.ext := false] else s.bits
  {
    ReleaseUnshared(Txn(s, EMPTY_DRAFT), k);
    var t := ReleaseObject(Txn(s, EMPTY_DRAFT), [k]);
    assert t.draft.cleared == [k.ext];
    SettleAt(t.led, t.draft.cleared);
  }

  /** Two objects are copied to one target. The first is switched and then deleted, which frees the
      target; the second switch commits all the same, and its object lies in an extent that the next
      allocation may hand out. */
  lemma SecondSwitchIsLost(s: Ledger, alloc: seq<(nat, nat)>, a: Seg, a': Seg, b: Seg, b': Seg)
    requires WellFormed(s) && s.shared == map[] && a.ext < |s.bits| && a'.ext < |s.bits| && Below(Expand(alloc), |s.bits|)
    requires b.ext == a.ext != a'.ext == b'.ext && a.len == a'.len > 0 && b.len == b'.len > 0
    requires s.bits[a.ext] && s.pins[a.ext] == 0 && s.live[a.ext] == 0
    requires a.len < U32 && b.len < U32 && s.live[a'.ext] >= a.len + b.len
    ensures var s3 := Committed(Freed(Committed(s, alloc, [a], [a']), [a]), [], [b], [b']);
      !s3.bits[a.ext] && s3.live[a.ext] == b.len && MayTake(s3, [a.ext], {})
  {
    CommittedOne(s, alloc, a, a');
    var s1 := Committed(s, alloc, [a], [a']);
    FreedOne(s1, a);
    CommittedOne(Freed(s1, [a]), [], b, b');
  }

  /** The same with numbers: objects of 4096 bytes in extent 1, copied to extent 0. */
  lemma SecondSwitchOfTwoIsLost()
    ensures WellFormed(TWO_OBJECTS) && Expand([(0, 1)]) == [0]
    ensures var s1 := Committed(TWO_OBJECTS, [(0, 1)], [Seg(0, 0, 4096)], [Seg(1, 0, 4096)]);
      var s3 := Committed(Freed(s1, [Seg(0, 0, 4096)]), [], [Seg(0, 4096, 4096)], [Seg(1, 4096, 4096)]);
      !s3.bits[0] && s3.live[0] == 4096 && MayTake(s3, [0], {})
  {
    assert Expand([(0, 1)]) == Span(0, 1) + Expand([]);
    SecondSwitchIsLost(TWO_OBJECTS, [(0, 1)], Seg(0, 0, 4096), Seg(1, 0, 4096), Seg(0, 4096, 4096), Seg(1, 4096, 4096));
  }
}
