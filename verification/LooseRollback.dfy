/** Rollback of drafts that do not keep to what rollback's callers owe: they add and share on extents that
    are not allocated, as the compactor's may, and release segments of no length. */
module LooseRollbacks {
  import opened Ledgers
  import opened Rollbacks
  import opened Undoing
  import opened CompactionLedgers

  /** Segments lie in existing extents, and allocation takes what the bitmap may hand out. */
  ghost predicate Possible(t: Txn, c: Call) {
    match c
    case CallAllocate(ids, skipped, ranges) => MayTake(t.led, ids, skipped) && multiset(Expand(ranges)) == multiset(ids)
    case CallNoSpace(ids, skipped) => MayTake(t.led, ids, skipped)
    case CallNote(seg) => seg.ext < |t.led.bits|
    case CallAdd(segs) => InRange(t.led, segs)
    case CallShare(segs) => InRange(t.led, segs)
    case CallRelease(segs) => InRange(t.led, segs)
  }

  /** Besides, only extents without bytes and references are allocated. */
  ghost predicate Loose(t: Txn, c: Call) {
    Possible(t, c) && (c.CallAllocate? || c.CallNoSpace? ==> Bare(t.led, c.ids))
  }

  ghost predicate Bare(s: Ledger, ids: seq<nat>) {
    forall e :: e in ids ==> e < |s.live| && e < |s.refcounts| && s.live[e] == 0 && s.refcounts[e] == 0
  }

  ghost function Do(t: Txn, c: Call): (r: Txn)
    requires WellFormed(t.led) && Possible(t, c)
    ensures WellFormed(r.led) && |r.led.bits| == |t.led.bits|
  {
    match c
    case CallAllocate(ids, skipped, ranges) => Allocate(t, ids, skipped, ranges)
    case CallNoSpace(ids, skipped) => AllocateNoSpace(t, ids, skipped)
    case CallNote(seg) => NoteInflight(t, seg)
    case CallAdd(segs) => AddObject(t, segs)
    case CallShare(segs) => ShareObject(t, segs)
    case CallRelease(segs) => ReleaseObject(t, segs)
  }

  ghost predicate AllLoose(t: Txn, calls: seq<Call>)
    requires WellFormed(t.led)
    decreases |calls|
  {
    calls == [] || (Loose(t, calls[0]) && AllLoose(Do(t, calls[0]), calls[1..]))
  }

  ghost function DoAll(t: Txn, calls: seq<Call>): (r: Txn)
    requires WellFormed(t.led) && AllLoose(t, calls)
    ensures WellFormed(r.led) && |r.led.bits| == |t.led.bits|
    decreases |calls|
  {
    if calls == [] then t else DoAll(Do(t, calls[0]), calls[1..])
  }

  // ---------- what every call keeps ----------

  /** An unpinned extent is allocated if it was, or if the draft has allocated it. */
  ghost predicate BitKept(s0: Ledger, t: Txn, e: nat) {
    && SameShape(s0, t) && e < |s0.bits|
    && (e in Ids(t.draft) ==> !s0.bits[e] && s0.pins[e] == 0)
    && (s0.pins[e] == 0 ==> t.led.bits[e] == (s0.bits[e] || e in Ids(t.draft)))
  }

  /** Only the draft's own allocations have been counted. */
  ghost predicate TotalsKept(s0: Ledger, t: Txn) {
    t.led.totalAlloc == s0.totalAlloc + |Ids(t.draft)| && t.led.totalFree == s0.totalFree
  }

  ghost predicate Keeps(s0: Ledger, t: Txn) {
    && SameShape(s0, t) && DraftInRange(t.led, t.draft) && TotalsKept(s0, t)
    && (forall e :: 0 <= e < |s0.bits| ==> CountersKept(s0, t, e) && BitKept(s0, t, e))
    && forall k :: ShareTracks(s0, t, k)
  }

  lemma TakeKeeps(s0: Ledger, t: Txn, c: Call)
    requires Keeps(s0, t) && WellFormed(t.led) && Loose(t, c) && (c.CallAllocate? || c.CallNoSpace?)
    ensures Keeps(s0, Do(t, c))
  {
    var r := Do(t, c);
    TakeAllAt(Isolate(t.led, c.skipped), c.ids);
    if c.CallNoSpace? {
      GiveBackAllAt(TakeAll(Isolate(t.led, c.skipped), c.ids), c.ids);
    } else {
      IdsAfter(t.draft, c.ids, c.ranges);
      var all := Ids(r.draft);
      forall i | 0 <= i < |all| ensures all[i] < |t.led.bits| {
        assert all[i] in all;
      }
    }
    forall e | 0 <= e < |s0.bits| ensures CountersKept(s0, r, e) && BitKept(s0, r, e) {
      assert CountersKept(s0, t, e) && BitKept(s0, t, e);
      TakeAt(s0, t, c, e);
    }
    forall k ensures ShareTracks(s0, r, k) {
      assert ShareTracks(s0, t, k);
    }
  }

  lemma TakeAt(s0: Ledger, t: Txn, c: Call, e: nat)
    requires WellFormed(t.led) && Loose(t, c) && (c.CallAllocate? || c.CallNoSpace?)
    requires CountersKept(s0, t, e) && BitKept(s0, t, e)
    ensures CountersKept(s0, Do(t, c), e) && BitKept(s0, Do(t, c), e)
  {
    if c.CallNoSpace? {
      NoSpaceAt(t, c, e);
    } else {
      AllocateAt(t, c, e);
    }
  }

  lemma AllocateAt(t: Txn, c: Call, e: nat)
    requires WellFormed(t.led) && Loose(t, c) && c.CallAllocate? && e < |t.led.bits|
    ensures var r := Do(t, c);
      && r.led.live[e] == t.led.live[e] && r.led.refcounts[e] == t.led.refcounts[e] && r.led.pins == t.led.pins
      && (t.led.pins[e] == 0 ==> r.led.bits[e] == (t.led.bits[e] || e in c.ids))
      && (e in Ids(r.draft) <==> e in Ids(t.draft) || e in c.ids) && (e in c.ids ==> !t.led.bits[e] && t.led.pins[e] == 0)
      && r.draft == t.draft.(alloc := r.draft.alloc)
  {
    TakeAllAt(Isolate(t.led, c.skipped), c.ids);
    IdsAfter(t.draft, c.ids, c.ranges);
  }

  lemma NoSpaceAt(t: Txn, c: Call, e: nat)
    requires WellFormed(t.led) && Loose(t, c) && c.CallNoSpace? && e < |t.led.bits|
    ensures var r := Do(t, c);
      && r.led.live[e] == t.led.live[e] && r.led.refcounts[e] == t.led.refcounts[e] && r.led.pins == t.led.pins
      && (t.led.pins[e] == 0 ==> r.led.bits[e] == t.led.bits[e]) && r.draft == t.draft
  {
    TakeAllAt(Isolate(t.led, c.skipped), c.ids);
    GiveBackAllAt(TakeAll(Isolate(t.led, c.skipped), c.ids), c.ids);
  }

  /** Calls that do not allocate change neither bits nor pins. */
  lemma DataFrame(t: Txn, c: Call)
    requires WellFormed(t.led) && DraftInRange(t.led, t.draft) && Loose(t, c) && !c.CallAllocate? && !c.CallNoSpace?
    ensures var r := Do(t, c);
      && r.led == t.led.(live := r.led.live, refcounts := r.led.refcounts, shared := r.led.shared)
      && r.draft.alloc == t.draft.alloc && DraftInRange(r.led, r.draft)
  {
    match c
    case CallNote(_) =>
    case CallAdd(segs) =>
      SeenInRange(t.led, segs, []);
      AddSegsFrame(t, multiset(t.draft.inflight), segs);
      AddSegsRange(t, multiset(t.draft.inflight), segs);
      RefUpFrame(AddSegs(t, multiset(t.draft.inflight), segs), Seen(segs, []));
      RefUpRange(AddSegs(t, multiset(t.draft.inflight), segs), Seen(segs, []));
    case CallShare(segs) =>
      SeenInRange(t.led, segs, []);
      ShareSegsFrame(t, segs);
      RefUpFrame(ShareSegs(t, segs), Seen(segs, []));
      RefUpRange(ShareSegs(t, segs), Seen(segs, []));
    case CallRelease(segs) =>
      SeenInRange(t.led, segs, []);
      ReleaseSegsFrame(t, segs);
      RefDownFrame(ReleaseSegs(t, segs), Seen(segs, []));
      RefDownRange(ReleaseSegs(t, segs), Seen(segs, []));
  }

  lemma DataCounters(s0: Ledger, t: Txn, c: Call, e: nat)
    requires WellFormed(t.led) && Loose(t, c) && !c.CallAllocate? && !c.CallNoSpace? && CountersKept(s0, t, e)
    ensures CountersKept(s0, Do(t, c), e)
  {
    match c
    case CallNote(seg) => GainLiveCounters(s0, t, (seg.ext, seg.len), e);
    case CallAdd(segs) =>
      SeenInRange(t.led, segs, []);
      AddSegsCounters(s0, t, multiset(t.draft.inflight), segs, e);
      RefUpCounters(s0, AddSegs(t, multiset(t.draft.inflight), segs), Seen(segs, []), e);
    case CallShare(segs) =>
      SeenInRange(t.led, segs, []);
      ShareSegsFrame(t, segs);
      RefUpCounters(s0, ShareSegs(t, segs), Seen(segs, []), e);
    case CallRelease(segs) =>
      SeenInRange(t.led, segs, []);
      ReleaseSegsCounters(s0, t, segs, e);
      RefDownCounters(s0, ReleaseSegs(t, segs), Seen(segs, []), e);
  }

  lemma DataShares(s0: Ledger, t: Txn, c: Call, k: Seg)
    requires WellFormed(t.led) && Loose(t, c) && !c.CallAllocate? && !c.CallNoSpace? && ShareTracks(s0, t, k)
    ensures ShareTracks(s0, Do(t, c), k)
  {
    match c
    case CallNote(_) =>
    case CallAdd(segs) =>
      SeenInRange(t.led, segs, []);
      AddSegsFrame(t, multiset(t.draft.inflight), segs);
      RefUpFrame(AddSegs(t, multiset(t.draft.inflight), segs), Seen(segs, []));
    case CallShare(segs) =>
      SeenInRange(t.led, segs, []);
      ShareSegsKey(s0, t, segs, k);
      RefUpFrame(ShareSegs(t, segs), Seen(segs, []));
    case CallRelease(segs) =>
      SeenInRange(t.led, segs, []);
      ReleaseSegsKey(s0, t, segs, k);
      RefDownFrame(ReleaseSegs(t, segs), Seen(segs, []));
  }

  lemma CallKeeps(s0: Ledger, t: Txn, c: Call)
    requires Keeps(s0, t) && WellFormed(t.led) && Loose(t, c)
    ensures Keeps(s0, Do(t, c))
  {
    if c.CallAllocate? || c.CallNoSpace? {
      TakeKeeps(s0, t, c);
    } else {
      var r := Do(t, c);
      DataFrame(t, c);
      forall e | 0 <= e < |s0.bits| ensures CountersKept(s0, r, e) && BitKept(s0, r, e) {
        assert CountersKept(s0, t, e) && BitKept(s0, t, e);
        DataCounters(s0, t, c, e);
      }
      forall k ensures ShareTracks(s0, r, k) {
        assert ShareTracks(s0, t, k);
        DataShares(s0, t, c, k);
      }
    }
  }

  lemma {:induction false} DraftKeeps(s0: Ledger, t: Txn, calls: seq<Call>)
    requires Keeps(s0, t) && WellFormed(t.led) && AllLoose(t, calls)
    ensures Keeps(s0, DoAll(t, calls))
    decreases |calls|
  {
    if calls != [] {
      CallKeeps(s0, t, calls[0]);
      DraftKeeps(s0, Do(t, calls[0]), calls[1..]);
    }
  }

  // ---------- the theorem ----------

  lemma {:induction false} SetBitsMore(a: seq<bool>, b: seq<bool>)
    requires |a| == |b| && forall e :: 0 <= e < |a| && a[e] ==> b[e]
    ensures SetBits(a) <= SetBits(b) && (SetBits(a) == SetBits(b) ==> a == b)
  {
    if a != [] {
      SetBitsMore(a[1..], b[1..]);
      assert a == [a[0]] + a[1..] && b == [b[0]] + b[1..];
    }
  }

  /** Every extent that the draft has emptied was allocated by then. */
  ghost predicate EmptiesTaken(t: Txn) {
    forall e :: e in t.draft.cleared ==> e < |t.led.bits| && t.led.bits[e]
  }

  /** The total of allocations comes back; that of frees comes back if and only if every extent that the
      draft has emptied was allocated at the time, and is too small otherwise. */
  lemma LooseTotals(s0: Ledger, t: Txn, s: Ledger)
    requires WellFormed(s0) && WellFormed(t.led) && Keeps(s0, t) && (s == t.led || s == Settle(t.led, t.draft.cleared))
    requires WellFormed(s) && DraftInRange(s, t.draft)
    ensures var r := Rollback(s, t.draft);
      && r.totalAlloc == s0.totalAlloc && r.totalFree <= s0.totalFree
      && (r.totalFree == s0.totalFree <==> EmptiesTaken(t))
  {
    SettleAt(t.led, t.draft.cleared);
    UnclearAt(s, t.draft.cleared);
    var u := Unclear(s, t.draft.cleared);
    UnallocateAt(u, Ids(t.draft));
    SetBitsMore(t.led.bits, u.bits);
    assert forall e :: e in t.draft.cleared ==> u.bits[e];
    if EmptiesTaken(t) {
      assert u.bits == t.led.bits;
    }
  }

  /** What a rollback restores of any draft: live bytes, reference counts, one-sided share entries and the
      total of allocations; the bit of an unpinned extent if and only if the draft has not emptied it while
      it was free; and the total of frees if and only if it has emptied no extent while that was free. */
  ghost predicate RestoresAll(s0: Ledger, r: Ledger, t: Txn)
    requires WellFormed(s0) && WellFormed(r)
  {
    && r.live == s0.live && r.refcounts == s0.refcounts && r.pins == s0.pins && |r.bits| == |s0.bits|
    && (forall k :: k in OneSided(t.draft) ==> KeepsEntry(s0.shared, r.shared, k))
    && r.totalAlloc == s0.totalAlloc && (r.totalFree == s0.totalFree <==> EmptiesTaken(t))
    && forall e :: 0 <= e < |s0.bits| && s0.pins[e] == 0 ==>
         (r.bits[e] == s0.bits[e] <==> (e in t.draft.cleared ==> s0.bits[e] || e in Ids(t.draft)))
  }

  lemma LooseFrom(s0: Ledger, t: Txn, s: Ledger)
    requires WellFormed(s0) && WellFormed(t.led) && Keeps(s0, t) && (s == t.led || s == Settle(t.led, t.draft.cleared))
    ensures WellFormed(s) && DraftInRange(s, t.draft) && RestoresAll(s0, Rollback(s, t.draft), t)
  {
    SettleAt(t.led, t.draft.cleared);
    RollbackShape(s, t.draft);
    UnclearAt(s, t.draft.cleared);
    UnallocateAt(Unclear(s, t.draft.cleared), Ids(t.draft));
    UndoCounters(s0, t);
    LooseTotals(s0, t, s);
    var r := Rollback(s, t.draft);
    forall k | k in OneSided(t.draft) ensures KeepsEntry(s0.shared, r.shared, k) {
      assert ShareTracks(s0, t, k);
      UndoShares(s0, t, k);
    }
    forall e | 0 <= e < |s0.bits| && s0.pins[e] == 0
      ensures r.bits[e] == s0.bits[e] <==> (e in t.draft.cleared ==> s0.bits[e] || e in Ids(t.draft))
    {
      assert BitKept(s0, t, e);
    }
  }

  lemma EmptyKeeps(s0: Ledger)
    requires WellFormed(s0)
    ensures Keeps(s0, Txn(s0, EMPTY_DRAFT))
  {
    var t := Txn(s0, EMPTY_DRAFT);
    forall e | 0 <= e < |s0.bits| ensures CountersKept(s0, t, e) && BitKept(s0, t, e) {
    }
  }

  lemma LooseKeeps(s0: Ledger, calls: seq<Call>)
    requires WellFormed(s0) && AllLoose(Txn(s0, EMPTY_DRAFT), calls)
    ensures Keeps(s0, DoAll(Txn(s0, EMPTY_DRAFT), calls))
  {
    EmptyKeeps(s0);
    DraftKeeps(s0, Txn(s0, EMPTY_DRAFT), calls);
  }

  /** Rollback of any draft, before its commit point or behind it. */
  lemma LooseRollbackRestores(s0: Ledger, calls: seq<Call>)
    requires WellFormed(s0) && AllLoose(Txn(s0, EMPTY_DRAFT), calls)
    ensures var t := DoAll(Txn(s0, EMPTY_DRAFT), calls);
      && DraftInRange(t.led, t.draft)
      && RestoresAll(s0, Rollback(t.led, t.draft), t)
      && RestoresAll(s0, Rollback(Settle(t.led, t.draft.cleared), t.draft), t)
  {
    var t := DoAll(Txn(s0, EMPTY_DRAFT), calls);
    LooseKeeps(s0, calls);
    LooseFrom(s0, t, t.led);
    LooseFrom(s0, t, Settle(t.led, t.draft.cleared));
  }
}
