/** Recovery: replaying the log of committed transactions onto a checkpointed bitmap. */
module Replays {
  import opened Ledgers
  import opened Rollbacks
  import opened Holdings
  import opened Runs
  import opened Rebuilds

  // ---------- applying one record ----------

  function ReplayAllocOne(s: Ledger, e: nat): (r: Ledger)
    requires WellFormed(s) && e < |s.bits|
    ensures WellFormed(r) && |r.bits| == |s.bits|
  {
    if s.bits[e] then s
    else s.(bits := s.bits[e := true], refcounts := s.refcounts[e := 1],
            generations := s.generations[e := s.generations[e] + 1], totalAlloc := s.totalAlloc + 1)
  }

  function ReplayAlloc(s: Ledger, ids: seq<nat>): (r: Ledger)
    requires WellFormed(s) && Below(ids, |s.bits|)
    ensures WellFormed(r) && |r.bits| == |s.bits|
    decreases |ids|
  {
    if ids == [] then s else ReplayAlloc(ReplayAllocOne(s, ids[0]), ids[1..])
  }

  function ReplayIncOne(s: Ledger, e: nat): (r: Ledger)
    requires WellFormed(s) && e < |s.bits|
    ensures WellFormed(r) && r.bits == s.bits
  {
    if s.bits[e] then s.(refcounts := s.refcounts[e := (s.refcounts[e] + 1) % U32]) else s
  }

  function ReplayInc(s: Ledger, ids: seq<nat>): (r: Ledger)
    requires WellFormed(s) && Below(ids, |s.bits|)
    ensures WellFormed(r) && |r.bits| == |s.bits|
    decreases |ids|
  {
    if ids == [] then s else ReplayInc(ReplayIncOne(s, ids[0]), ids[1..])
  }

  function ReplayDecOne(s: Ledger, e: nat, retained: seq<nat>): (r: Ledger)
    requires WellFormed(s) && e < |s.bits|
    ensures WellFormed(r) && |r.bits| == |s.bits|
  {
    if e in retained || !s.bits[e] then s
    else s.(bits := s.bits[e := false], refcounts := s.refcounts[e := 0], live := s.live[e := 0],
            phase := s.phase[e := Free], totalFree := s.totalFree + 1)
  }

  /** Clears the named extents, except those that the same record also hands out. */
  function ReplayDec(s: Ledger, ids: seq<nat>, retained: seq<nat>): (r: Ledger)
    requires WellFormed(s) && Below(ids, |s.bits|)
    ensures WellFormed(r) && |r.bits| == |s.bits|
    decreases |ids|
  {
    if ids == [] then s else ReplayDec(ReplayDecOne(s, ids[0], retained), ids[1..], retained)
  }

  predicate RecordInRange(n: nat, rec: Record) {
    Below(Expand(rec.alloc), n) && Below(rec.refInc, n) && Below(rec.refDec, n)
  }

  function ApplyRecord(s: Ledger, rec: Record): (r: Ledger)
    requires WellFormed(s) && RecordInRange(|s.bits|, rec)
    ensures WellFormed(r) && |r.bits| == |s.bits|
  {
    var ids := Expand(rec.alloc);
    ReplayDec(ReplayInc(ReplayAlloc(s, ids), rec.refInc), rec.refDec, ids + rec.refInc)
  }

  lemma {:induction false} ReplayAllocBit(s: Ledger, ids: seq<nat>, e: nat)
    requires WellFormed(s) && Below(ids, |s.bits|) && e < |s.bits|
    ensures ReplayAlloc(s, ids).bits[e] == (s.bits[e] || e in ids)
    decreases |ids|
  {
    if ids != [] {
      ReplayAllocBit(ReplayAllocOne(s, ids[0]), ids[1..], e);
    }
  }

  lemma {:induction false} ReplayIncBit(s: Ledger, ids: seq<nat>)
    requires WellFormed(s) && Below(ids, |s.bits|)
    ensures ReplayInc(s, ids).bits == s.bits
    decreases |ids|
  {
    if ids != [] {
      ReplayIncBit(ReplayIncOne(s, ids[0]), ids[1..]);
    }
  }

  lemma {:induction false} ReplayDecBit(s: Ledger, ids: seq<nat>, retained: seq<nat>, e: nat)
    requires WellFormed(s) && Below(ids, |s.bits|) && e < |s.bits|
    ensures ReplayDec(s, ids, retained).bits[e] == (s.bits[e] && (e !in ids || e in retained))
    decreases |ids|
  {
    if ids != [] {
      ReplayDecBit(ReplayDecOne(s, ids[0], retained), ids[1..], retained, e);
    }
  }

  /** One record, one extent: set if handed out, cleared if emptied by somebody else. */
  lemma ApplyRecordBit(s: Ledger, rec: Record, e: nat)
    requires WellFormed(s) && RecordInRange(|s.bits|, rec) && e < |s.bits|
    ensures var ids := Expand(rec.alloc);
      ApplyRecord(s, rec).bits[e] ==
      ((s.bits[e] || e in ids) && (e !in rec.refDec || e in ids || e in rec.refInc))
  {
    var ids := Expand(rec.alloc);
    ReplayAllocBit(s, ids, e);
    ReplayIncBit(ReplayAlloc(s, ids), rec.refInc);
    ReplayDecBit(ReplayInc(ReplayAlloc(s, ids), rec.refInc), rec.refDec, ids + rec.refInc, e);
  }

  lemma {:induction false} ReplayAllocExtent(s: Ledger, ids: seq<nat>, e: nat)
    requires WellFormed(s) && Below(ids, |s.bits|) && e < |s.bits|
    ensures var r, taken := ReplayAlloc(s, ids), e in ids && !s.bits[e];
      && r.generations[e] == s.generations[e] + (if taken then 1 else 0)
      && r.refcounts[e] == (if taken then 1 else s.refcounts[e])
      && r.live == s.live && r.phase == s.phase && r.pins == s.pins
    decreases |ids|
  {
    if ids != [] {
      ReplayAllocExtent(ReplayAllocOne(s, ids[0]), ids[1..], e);
    }
  }

  /** A 32-bit counter that stood at `x`, `n` increments later. */
  function Raised(x: nat, n: nat): nat {
    (x + n) % U32
  }

  lemma {:induction false} ReplayIncExtent(s: Ledger, ids: seq<nat>, e: nat)
    requires WellFormed(s) && Below(ids, |s.bits|) && e < |s.bits|
    ensures ReplayInc(s, ids).refcounts[e] == if s.bits[e] then Raised(s.refcounts[e], Count(ids, e)) else s.refcounts[e]
    decreases |ids|
  {
    if ids != [] {
      ReplayIncExtent(ReplayIncOne(s, ids[0]), ids[1..], e);
      if ids[0] == e && s.bits[e] {
        ModShift(s.refcounts[e] + 1, Count(ids[1..], e));
      }
    }
  }

  lemma {:induction false} ReplayIncFrame(s: Ledger, ids: seq<nat>)
    requires WellFormed(s) && Below(ids, |s.bits|)
    ensures ReplayInc(s, ids) == s.(refcounts := ReplayInc(s, ids).refcounts)
    decreases |ids|
  {
    if ids != [] {
      ReplayIncFrame(ReplayIncOne(s, ids[0]), ids[1..]);
    }
  }

  lemma {:induction false} ReplayDecExtent(s: Ledger, ids: seq<nat>, retained: seq<nat>, e: nat)
    requires WellFormed(s) && Below(ids, |s.bits|) && e < |s.bits|
    ensures var r, freed := ReplayDec(s, ids, retained), e in ids && e !in retained && s.bits[e];
      && r.generations == s.generations && r.pins == s.pins
      && r.refcounts[e] == (if freed then 0 else s.refcounts[e])
      && r.live[e] == (if freed then 0 else s.live[e]) && r.phase[e] == (if freed then Free else s.phase[e])
    decreases |ids|
  {
    if ids != [] {
      ReplayDecExtent(ReplayDecOne(s, ids[0], retained), ids[1..], retained, e);
    }
  }

  lemma ApplyFirstPart(s: Ledger, ids: seq<nat>, inc: seq<nat>, e: nat)
    requires WellFormed(s) && Below(ids, |s.bits|) && Below(inc, |s.bits|) && e < |s.bits|
    ensures var i, taken := ReplayInc(ReplayAlloc(s, ids), inc), e in ids && !s.bits[e];
      && |i.bits| == |s.bits| && i.bits[e] == (s.bits[e] || taken)
      && i.generations[e] == s.generations[e] + (if taken then 1 else 0)
      && i.refcounts[e] == (if i.bits[e] then Raised(if taken then 1 else s.refcounts[e], Count(inc, e)) else s.refcounts[e])
      && i.live[e] == s.live[e] && i.phase[e] == s.phase[e] && i.pins == s.pins
  {
    var a := ReplayAlloc(s, ids);
    ReplayAllocBit(s, ids, e);
    ReplayAllocExtent(s, ids, e);
    ReplayIncExtent(a, inc, e);
    ReplayIncFrame(a, inc);
  }

  /** One record, one extent: an allocation of a clear extent raises its generation by one and sets its count
      to one, references that the record adds are counted, and what it empties loses count, bytes and phase. */
  lemma ApplyRecordExtent(s: Ledger, rec: Record, e: nat)
    requires WellFormed(s) && RecordInRange(|s.bits|, rec) && e < |s.bits|
    ensures var r, taken := ApplyRecord(s, rec), e in Expand(rec.alloc) && !s.bits[e];
      var counted := Raised(if taken then 1 else s.refcounts[e], Count(rec.refInc, e));
      var used := s.bits[e] || taken;
      && r.generations[e] == s.generations[e] + (if taken then 1 else 0) && r.pins == s.pins
      && if used && !r.bits[e] then r.refcounts[e] == 0 && r.live[e] == 0 && r.phase[e] == Free
         else r.refcounts[e] == (if used then counted else s.refcounts[e]) && r.live[e] == s.live[e] && r.phase[e] == s.phase[e]
  {
    var ids := Expand(rec.alloc);
    var i := ReplayInc(ReplayAlloc(s, ids), rec.refInc);
    ApplyFirstPart(s, ids, rec.refInc, e);
    ReplayDecBit(i, rec.refDec, ids + rec.refInc, e);
    ReplayDecExtent(i, rec.refDec, ids + rec.refInc, e);
  }

  lemma {:induction false} ReplayAllocTotals(s: Ledger, ids: seq<nat>)
    requires WellFormed(s) && Below(ids, |s.bits|)
    ensures var r := ReplayAlloc(s, ids); r.totalAlloc - SetBits(r.bits) == s.totalAlloc - SetBits(s.bits) && r.totalFree == s.totalFree
    decreases |ids|
  {
    if ids != [] {
      SetBitsUpdate(s.bits, ids[0], true);
      ReplayAllocTotals(ReplayAllocOne(s, ids[0]), ids[1..]);
    }
  }

  lemma {:induction false} ReplayDecTotals(s: Ledger, ids: seq<nat>, retained: seq<nat>)
    requires WellFormed(s) && Below(ids, |s.bits|)
    ensures var r := ReplayDec(s, ids, retained);
      r.totalFree + SetBits(r.bits) == s.totalFree + SetBits(s.bits) && r.totalAlloc == s.totalAlloc
    decreases |ids|
  {
    if ids != [] {
      SetBitsUpdate(s.bits, ids[0], false);
      ReplayDecTotals(ReplayDecOne(s, ids[0], retained), ids[1..], retained);
    }
  }

  /** Replay keeps the totals in step with the bitmap: what was allocated less what was freed is what is set. */
  lemma ApplyRecordTotals(s: Ledger, rec: Record)
    requires WellFormed(s) && RecordInRange(|s.bits|, rec)
    ensures var r := ApplyRecord(s, rec);
      r.totalAlloc - r.totalFree - SetBits(r.bits) == s.totalAlloc - s.totalFree - SetBits(s.bits)
  {
    var ids := Expand(rec.alloc);
    var a := ReplayAlloc(s, ids);
    ReplayAllocTotals(s, ids);
    ReplayIncFrame(a, rec.refInc);
    ReplayDecTotals(ReplayInc(a, rec.refInc), rec.refDec, ids + rec.refInc);
  }

  // ---------- what a draft logs ----------

  /** A draft logs as released exactly the extents it emptied, and never a reference gain. */
  ghost predicate LogsEmptied(d: Staged) {
    d.refInc == [] && d.refDec == d.cleared
  }

  lemma {:induction false} ReleaseLogs(t: Txn, segs: seq<Seg>)
    requires WellFormed(t.led) && InRange(t.led, segs) && LogsEmptied(t.draft)
    ensures LogsEmptied(ReleaseSegs(t, segs).draft)
    decreases |segs|
  {
    if segs != [] {
      ReleaseLogs(ReleaseSeg(t, segs[0]), segs[1..]);
    }
  }

  lemma CallLogs(t: Txn, c: Call)
    requires WellFormed(t.led) && Legal(t, c) && LogsEmptied(t.draft)
    ensures LogsEmptied(Do(t, c).draft)
    ensures !c.CallRelease? ==> Do(t, c).draft.cleared == t.draft.cleared
  {
    match c
    case CallAllocate(_, _, _) =>
    case CallNoSpace(_, _) =>
    case CallNote(_) =>
    case CallAdd(segs) =>
      SeenInRange(t.led, segs, []);
      AddSegsFrame(t, multiset(t.draft.inflight), segs);
      RefUpFrame(AddSegs(t, multiset(t.draft.inflight), segs), Seen(segs, []));
    case CallShare(segs) =>
      SeenInRange(t.led, segs, []);
      ShareSegsFrame(t, segs);
      RefUpFrame(ShareSegs(t, segs), Seen(segs, []));
    case CallRelease(segs) =>
      SeenInRange(t.led, segs, []);
      ReleaseLogs(t, segs);
      RefDownFrame(ReleaseSegs(t, segs), Seen(segs, []));
  }

  // ---------- transactions that add before they release ----------

  /** No put and no note comes after a delete. */
  predicate AddsFirst(acts: seq<Act>) {
    forall i, j :: 0 <= i < j < |acts| && acts[i].ActDelete? ==> !acts[j].ActPut? && !acts[j].ActNote?
  }

  /** An extent that the draft emptied stays empty. */
  ghost predicate StaysEmpty(t: Txn, e: nat)
    requires WellFormed(t.led) && e < |t.led.bits|
  {
    e in t.draft.cleared ==> t.led.live[e] == 0
  }

  lemma {:induction false} ReleaseStaysEmpty(t: Txn, segs: seq<Seg>, e: nat)
    requires WellFormed(t.led) && InRange(t.led, segs) && e < |t.led.bits| && StaysEmpty(t, e)
    ensures StaysEmpty(ReleaseSegs(t, segs), e)
    decreases |segs|
  {
    if segs != [] {
      ReleaseStaysEmpty(ReleaseSeg(t, segs[0]), segs[1..], e);
    }
  }

  lemma CallStaysEmpty(t: Txn, c: Call, e: nat)
    requires WellFormed(t.led) && Legal(t, c) && e < |t.led.bits| && StaysEmpty(t, e)
    requires LogsEmptied(t.draft) && !c.CallAdd? && !c.CallNote?
    ensures StaysEmpty(Do(t, c), e)
  {
    CallLogs(t, c);
    match c
    case CallAllocate(ids, skipped, ranges) => TakeAllAt(Isolate(t.led, skipped), ids);
    case CallNoSpace(ids, skipped) =>
      TakeAllAt(Isolate(t.led, skipped), ids);
      GiveBackAllAt(TakeAll(Isolate(t.led, skipped), ids), ids);
    case CallShare(segs) =>
      SeenInRange(t.led, segs, []);
      ShareSegsFrame(t, segs);
      RefUpFrame(ShareSegs(t, segs), Seen(segs, []));
    case CallRelease(segs) =>
      SeenInRange(t.led, segs, []);
      ReleaseStaysEmpty(t, segs, e);
      RefDownFrame(ReleaseSegs(t, segs), Seen(segs, []));
  }

  /** In a transaction that adds first, whatever it emptied is still empty at its commit point. */
  lemma {:induction false} EmptiedAtCommit(w: World, acts: seq<Act>, e: nat)
    requires WorldAccounts(w) && ActsLegal(w, acts) && AddsFirst(acts) && LogsEmptied(w.txn.draft)
    requires e < |w.txn.led.bits| && StaysEmpty(w.txn, e)
    requires w.txn.draft.cleared == [] ||
             forall i :: 0 <= i < |acts| ==> !acts[i].ActPut? && !acts[i].ActNote?
    ensures LogsEmptied(PerformAll(w, acts).txn.draft)
    ensures StaysEmpty(PerformAll(w, acts).txn, e)
    decreases |acts|
  {
    if acts != [] {
      var a := acts[0];
      ActIsLegalCall(w, a);
      ActAccounts(w, a);
      CallLogs(w.txn, CallOf(w, a));
      if !a.ActPut? && !a.ActNote? {
        CallStaysEmpty(w.txn, CallOf(w, a), e);
      }
      EmptiedAtCommit(Perform(w, a), acts[1..], e);
    }
  }

  // ---------- replay refines memory ----------

  ghost predicate NothingPinned(s: Ledger) {
    forall e :: 0 <= e < |s.pins| ==> s.pins[e] == 0
  }

  /** Replayed bits include the bits in memory. */
  ghost predicate Covers(replayed: Ledger, memory: Ledger) {
    && WellFormed(replayed) && |replayed.bits| == |memory.bits|
    && forall e :: 0 <= e < |memory.bits| && memory.bits[e] ==> replayed.bits[e]
  }

  /** The log of a step: a committed draft or leak repair writes one record, the rest write none. */
  ghost function LogOf(st: Store, p: Step): seq<Record>
    requires StoreOk(st) && StepLegal(st, p)
  {
    match p
    case Commit(acts) => [RecordOf(PerformAll(Begin(st), acts).txn.draft)]
    case RepairLeak(e) => [RecordOf(ReleaseLeaked(Txn(st.led, EMPTY_DRAFT), e).draft)]
    case _ => []
  }

  function ReplayAll(s: Ledger, log: seq<Record>): (r: Ledger)
    requires WellFormed(s) && forall i :: 0 <= i < |log| ==> RecordInRange(|s.bits|, log[i])
    ensures WellFormed(r) && |r.bits| == |s.bits|
    decreases |log|
  {
    if log == [] then s else ReplayAll(ApplyRecord(s, log[0]), log[1..])
  }

  /** One extent after a commit, in memory and after replay of its record. */
  lemma DraftReplayAt(st: Store, acts: seq<Act>, e: nat)
    requires StoreOk(st) && StepLegal(st, Commit(acts)) && NothingPinned(st.led) && e < |st.led.bits|
    ensures var w := PerformAll(Begin(st), acts);
      var d := w.txn.draft;
      && RecordInRange(|st.led.bits|, RecordOf(d))
      && ApplyRecord(st.led, RecordOf(d)).bits[e] ==
           ((st.led.bits[e] || e in Ids(d)) && (e !in d.cleared || e in Ids(d)))
      && Next(st, Commit(acts)).led.bits[e] ==
           ((st.led.bits[e] || e in Ids(d)) && !(e in d.cleared && w.txn.led.live[e] == 0))
  {
    var w := PerformAll(Begin(st), acts);
    ActsTracked(st, acts);
    ActsLog(Begin(st), acts);
    SettleAt(w.txn.led, w.txn.draft.cleared);
    assert ExtentTracks(st.led, w.txn, e);
    ApplyRecordBit(st.led, RecordOf(w.txn.draft), e);
  }

  /** Replaying one transaction's record on a bitmap equal to the one it started from covers memory
      if and only if each extent that it emptied, and did not itself allocate, is still empty when
      it commits. */
  lemma DraftReplayExact(st: Store, acts: seq<Act>)
    requires StoreOk(st) && StepLegal(st, Commit(acts)) && NothingPinned(st.led)
    ensures var w := PerformAll(Begin(st), acts);
      && RecordInRange(|st.led.bits|, RecordOf(w.txn.draft))
      && (Covers(ApplyRecord(st.led, RecordOf(w.txn.draft)), Next(st, Commit(acts)).led) <==>
          forall e :: 0 <= e < |w.txn.led.live| && e in w.txn.draft.cleared && e !in Ids(w.txn.draft) ==>
            w.txn.led.live[e] == 0)
  {
    var w := PerformAll(Begin(st), acts);
    var s, d := w.txn.led, w.txn.draft;
    ActsTracked(st, acts);
    ActsLog(Begin(st), acts);
    var r, m := ApplyRecord(st.led, RecordOf(d)), Next(st, Commit(acts)).led;
    forall e | 0 <= e < |s.bits|
      ensures r.bits[e] == ((st.led.bits[e] || e in Ids(d)) && (e !in d.cleared || e in Ids(d)))
      ensures m.bits[e] == ((st.led.bits[e] || e in Ids(d)) && !(e in d.cleared && s.live[e] == 0))
    {
      DraftReplayAt(st, acts, e);
    }
    if Covers(r, m) {
      forall e | e in d.cleared && e !in Ids(d) ensures s.live[e] == 0 {
        assert ExtentTracks(st.led, w.txn, e);
      }
    }
  }

  /** A draft of two acts is one after the other. */
  lemma TwoActs(w: World, a: Act, b: Act)
    requires WellFormed(w.txn.led) && ObjectsOk(|w.txn.led.bits|, w.objs)
    ensures ActsLegal(w, [a, b]) <==> ActLegal(w, a) && ActLegal(Perform(w, a), b)
    ensures ActsLegal(w, [a, b]) ==> PerformAll(w, [a, b]) == Perform(Perform(w, a), b)
  {
    assert [a, b][1..] == [b] && [b][1..] == [];
    if ActLegal(w, a) {
      var mid := Perform(w, a);
      assert ActsLegal(w, [a, b]) <==> ActsLegal(mid, [b]);
      if ActLegal(mid, b) {
        assert ActsLegal(Perform(mid, b), []);
        assert PerformAll(mid, [b]) == PerformAll(Perform(mid, b), []);
      }
    }
  }

  /** The draft that deletes the last object of an extent and then puts another there. */
  lemma ReuseDraft(st: Store, i: nat, p: Seg)
    requires StoreOk(st) && i < |st.objs| && |st.objs[i]| == 1
    requires st.led.shared == map[] && p.ext == st.objs[i][0].ext && p.ext < |st.led.bits|
    requires st.led.live[p.ext] == st.objs[i][0].len && p.len > 0
    requires ActLegal(Begin(st), ActDelete(i)) && ActLegal(Perform(Begin(st), ActDelete(i)), ActPut([p]))
    ensures var t := Perform(Perform(Begin(st), ActDelete(i)), ActPut([p])).txn;
      t.draft.cleared == [p.ext] && t.draft.alloc == [] && t.led.live[p.ext] == p.len
  {
    assert st.objs[i] == [st.objs[i][0]];
    ReleaseUnshared(Begin(st).txn, st.objs[i][0]);
    var mid := Perform(Begin(st), ActDelete(i));
    PutFits(mid, p);
    AddOne(mid.txn, p);
  }

  lemma PutFits(w: World, p: Seg)
    requires Fits(|w.txn.led.bits|, Keys(w.objs + [[p]]), []) && p.ext < |w.txn.led.bits|
    ensures p.len < U32
  {
    HeldIsKey(w.objs, p);
    BytesRemove(Keys(w.objs + [[p]]), p, p.ext);
  }

  /** Such a transaction, once committed, keeps its extent in memory; replay frees it. */
  lemma ReuseIsLost(st: Store, i: nat, p: Seg)
    requires StoreOk(st) && NothingPinned(st.led) && i < |st.objs| && |st.objs[i]| == 1
    requires st.led.shared == map[] && p.ext == st.objs[i][0].ext && p.ext < |st.led.bits|
    requires st.led.live[p.ext] == st.objs[i][0].len && p.len > 0
    requires StepLegal(st, Commit([ActDelete(i), ActPut([p])]))
    ensures var acts := [ActDelete(i), ActPut([p])];
      var rec := RecordOf(PerformAll(Begin(st), acts).txn.draft);
      && RecordInRange(|st.led.bits|, rec)
      && Next(st, Commit(acts)).led.bits[p.ext] && !ApplyRecord(st.led, rec).bits[p.ext]
  {
    var acts := [ActDelete(i), ActPut([p])];
    TwoActs(Begin(st), acts[0], acts[1]);
    ReuseDraft(st, i, p);
    DraftReplayAt(st, acts, p.ext);
    OnAllocated(st, i, p.ext);
  }

  lemma OnAllocated(st: Store, i: nat, e: nat)
    requires StoreOk(st) && i < |st.objs| && |st.objs[i]| == 1
    requires e < |st.led.bits| && st.objs[i][0].ext == e && st.led.live[e] == st.objs[i][0].len
    ensures st.led.bits[e]
  {
    assert LiveAccounts(st.led, st.objs, [], e) && ObjectOk(|st.led.bits|, st.objs[i]);
  }

  lemma HeldIsKey(objs: seq<Object>, p: Seg)
    ensures p in Keys(objs + [[p]])
  {
    assert (objs + [[p]])[|objs|] == [p] && p in [p];
  }

  /** One extent with one object of one segment on it. */
  function OneObject(k: Seg): Store {
    Store(Ledger([true], [1], [1], [k.len], [Open], map[], [0], {}, 1, 0), [[k]])
  }

  lemma OneObjectAccounts(k: Seg)
    requires k.ext == 0 && 0 < k.len < U32
    ensures StoreOk(OneObject(k))
  {
    var st := OneObject(k);
    assert ObjectOk(1, [k]);
    OneKey(k);
    assert LiveAccounts(st.led, st.objs, [], 0);
    assert RefAccounts(st.led, st.objs, 0);
    forall x ensures KeyAccounts(st.led, st.objs, x) {
      DistinctCount([k], x);
      assert st.objs[1..] == [];
    }
  }

  lemma OneKey(k: Seg)
    ensures Keys([[k]]) == {k} && Bytes({k}, k.ext) == k.len
    ensures Touching([[k]], k.ext) == 1
  {
    HeldIsKey([], k);
    assert [] + [[k]] == [[k]];
    BytesRemove({k}, k, k.ext);
    assert {k} - {k} == {};
    assert [[k]][1..] == [] && [k][0] == k;
  }

  lemma PutAfterDelete(k: Seg, p: Seg)
    requires k.ext == 0 && p.ext == 0 && 0 < k.len < U32 && 0 < p.len < U32
    requires StoreOk(OneObject(k))
    ensures var mid := Perform(Begin(OneObject(k)), ActDelete(0)); ActLegal(mid, ActPut([p]))
  {
    var b := Begin(OneObject(k));
    ReleaseUnshared(b.txn, k);
    var mid := Perform(b, ActDelete(0));
    assert mid.objs == [[]] && Keys(mid.objs) == {};
    assert mid.objs + [[p]] == [[], [p]];
    assert Keys(mid.objs + [[p]]) == {p} by {
      HeldIsKey(mid.objs, p);
    }
    OneKey(p);
    assert ObjectOk(1, [p]);
    assert Touching([[]], 0) == 0;
  }

  /** In a store with one extent and one object such a transaction is legal. */
  lemma ReuseInOneExtent(k: Seg, p: Seg)
    requires k.ext == 0 && p.ext == 0 && 0 < k.len < U32 && 0 < p.len < U32
    ensures var st, acts := OneObject(k), [ActDelete(0), ActPut([p])];
      && StoreOk(st) && NothingPinned(st.led) && StepLegal(st, Commit(acts))
      && Next(st, Commit(acts)).led.bits == [true]
      && var rec := RecordOf(PerformAll(Begin(st), acts).txn.draft);
         RecordInRange(1, rec) && ApplyRecord(st.led, rec).bits == [false]
  {
    var st := OneObject(k);
    OneObjectAccounts(k);
    PutAfterDelete(k, p);
    TwoActs(Begin(st), ActDelete(0), ActPut([p]));
    ReuseIsLost(st, 0, p);
  }

  lemma {:induction false} ActsLog(w: World, acts: seq<Act>)
    requires WorldAccounts(w) && ActsLegal(w, acts) && LogsEmptied(w.txn.draft)
    ensures LogsEmptied(PerformAll(w, acts).txn.draft)
    decreases |acts|
  {
    if acts != [] {
      ActIsLegalCall(w, acts[0]);
      ActAccounts(w, acts[0]);
      CallLogs(w.txn, CallOf(w, acts[0]));
      ActsLog(Perform(w, acts[0]), acts[1..]);
    }
  }

  lemma CommitCovered(st: Store, acts: seq<Act>, replayed: Ledger)
    requires StoreOk(st) && StepLegal(st, Commit(acts)) && NothingPinned(st.led) && AddsFirst(acts)
    requires Covers(replayed, st.led)
    ensures var rec := RecordOf(PerformAll(Begin(st), acts).txn.draft);
      && RecordInRange(|replayed.bits|, rec)
      && Covers(ApplyRecord(replayed, rec), Next(st, Commit(acts)).led)
  {
    var w := PerformAll(Begin(st), acts);
    var s, d := w.txn.led, w.txn.draft;
    ActsTracked(st, acts);
    ActsLog(Begin(st), acts);
    SettleAt(s, d.cleared);
    forall e | 0 <= e < |s.bits| && Next(st, Commit(acts)).led.bits[e]
      ensures ApplyRecord(replayed, RecordOf(d)).bits[e]
    {
      assert ExtentTracks(st.led, w.txn, e);
      EmptiedAtCommit(Begin(st), acts, e);
      ApplyRecordBit(replayed, RecordOf(d), e);
    }
  }

  lemma RepairCovered(st: Store, e: nat, replayed: Ledger)
    requires StoreOk(st) && StepLegal(st, RepairLeak(e)) && Covers(replayed, st.led)
    requires NothingPinned(st.led)
    ensures var rec := RecordOf(ReleaseLeaked(Txn(st.led, EMPTY_DRAFT), e).draft);
      && RecordInRange(|replayed.bits|, rec)
      && Covers(ApplyRecord(replayed, rec), Next(st, RepairLeak(e)).led)
  {
    var t := ReleaseLeaked(Txn(st.led, EMPTY_DRAFT), e);
    SettleAt(t.led, t.draft.cleared);
    forall x | 0 <= x < |st.led.bits| && Next(st, RepairLeak(e)).led.bits[x]
      ensures ApplyRecord(replayed, RecordOf(t.draft)).bits[x]
    {
      ApplyRecordBit(replayed, RecordOf(t.draft), x);
    }
  }

  lemma AbortCovered(st: Store, p: Step, replayed: Ledger)
    requires StoreOk(st) && p.Abort? && StepLegal(st, p) && Covers(replayed, st.led)
    requires NothingPinned(st.led)
    ensures Covers(replayed, Next(st, p).led) && NothingPinned(Next(st, p).led)
  {
    CallsTracked(st, p.calls);
    var t := DoAll(Txn(st.led, EMPTY_DRAFT), p.calls);
    RollbackFrom(st.led, t, if p.afterCommitPoint then Settle(t.led, t.draft.cleared) else t.led);
  }

  /** The steps to which the replay theorem applies. */
  predicate Replayable(p: Step) {
    match p
    case Commit(acts) => AddsFirst(acts)
    case Abort(_, _) => true
    case RepairLeak(_) => true
    case _ => false
  }

  lemma SettleKeepsPins(s: Ledger, cleared: seq<nat>)
    requires WellFormed(s) && Below(cleared, |s.bits|)
    ensures Settle(s, cleared).pins == s.pins
  {
    SettleAt(s, cleared);
  }

  lemma ReplayOne(s: Ledger, rec: Record)
    requires WellFormed(s) && RecordInRange(|s.bits|, rec)
    ensures ReplayAll(s, [rec]) == ApplyRecord(s, rec)
  {
    assert [rec][1..] == [];
    assert ReplayAll(ApplyRecord(s, rec), []) == ApplyRecord(s, rec);
  }

  lemma CommitStepCovered(st: Store, p: Step, replayed: Ledger)
    requires StoreOk(st) && StepLegal(st, p) && p.Commit? && Replayable(p) && NothingPinned(st.led)
    requires Covers(replayed, st.led)
    ensures RecordInRange(|replayed.bits|, LogOf(st, p)[0])
    ensures Covers(ReplayAll(replayed, LogOf(st, p)), Next(st, p).led)
    ensures NothingPinned(Next(st, p).led)
  {
    CommitCovered(st, p.acts, replayed);
    ActsTracked(st, p.acts);
    var w := PerformAll(Begin(st), p.acts);
    SettleKeepsPins(w.txn.led, w.txn.draft.cleared);
    ReplayOne(replayed, RecordOf(w.txn.draft));
  }

  lemma RepairStepCovered(st: Store, p: Step, replayed: Ledger)
    requires StoreOk(st) && StepLegal(st, p) && p.RepairLeak? && NothingPinned(st.led)
    requires Covers(replayed, st.led)
    ensures RecordInRange(|replayed.bits|, LogOf(st, p)[0])
    ensures Covers(ReplayAll(replayed, LogOf(st, p)), Next(st, p).led)
    ensures NothingPinned(Next(st, p).led)
  {
    RepairCovered(st, p.e, replayed);
    var t := ReleaseLeaked(Txn(st.led, EMPTY_DRAFT), p.e);
    SettleKeepsPins(t.led, t.draft.cleared);
    ReplayOne(replayed, RecordOf(t.draft));
  }

  lemma StepCovered(st: Store, p: Step, replayed: Ledger)
    requires StoreOk(st) && StepLegal(st, p) && Replayable(p) && NothingPinned(st.led)
    requires Covers(replayed, st.led)
    ensures forall i :: 0 <= i < |LogOf(st, p)| ==> RecordInRange(|replayed.bits|, LogOf(st, p)[i])
    ensures Covers(ReplayAll(replayed, LogOf(st, p)), Next(st, p).led)
    ensures NothingPinned(Next(st, p).led)
  {
    match p
    case Commit(_) => CommitStepCovered(st, p, replayed);
    case RepairLeak(_) => RepairStepCovered(st, p, replayed);
    case Abort(_, _) => AbortCovered(st, p, replayed);
  }

  /** The ledger that recovery arrives at: the checkpoint, with every record of the run replayed. */
  ghost function Recover(st: Store, run: seq<Step>, replayed: Ledger): (r: Ledger)
    requires StoreOk(st) && RunLegal(st, run) && NothingPinned(st.led) && Covers(replayed, st.led)
    requires forall i :: 0 <= i < |run| ==> Replayable(run[i])
    ensures Covers(r, RunAll(st, run).led)
    decreases |run|
  {
    if run == [] then replayed else
      StepCovered(st, run[0], replayed);
      StepOk(st, run[0]);
      Recover(Next(st, run[0]), run[1..], ReplayAll(replayed, LogOf(st, run[0])))
  }

  // ---------- after replay ----------

  /** The allocated extents that no live object reaches, in increasing order. */
  function Leaks(s: Ledger, reachable: set<nat>, from: nat): (r: seq<nat>)
    requires from <= |s.bits|
    decreases |s.bits| - from
  {
    if from == |s.bits| then []
    else (if s.bits[from] && from !in reachable then [from] else []) + Leaks(s, reachable, from + 1)
  }

  lemma {:induction false} LeaksAre(s: Ledger, reachable: set<nat>, from: nat)
    requires from <= |s.bits|
    ensures forall e :: e in Leaks(s, reachable, from) <==>
              from <= e < |s.bits| && s.bits[e] && e !in reachable
    decreases |s.bits| - from
  {
    if from < |s.bits| {
      LeaksAre(s, reachable, from + 1);
    }
  }

  function Reachable(objs: seq<Object>): set<nat> {
    set k | k in Keys(objs) :: k.ext
  }

  function HealOne(s: Ledger, e: nat): (r: Ledger)
    requires WellFormed(s) && e < |s.bits|
    ensures WellFormed(r) && |r.bits| == |s.bits|
  {
    if s.live[e] > 0 && !s.bits[e] then s.(bits := s.bits[e := true], totalAlloc := s.totalAlloc + 1) else s
  }

  /** Marks extents that hold live bytes but whose bit is clear. */
  function Heal(s: Ledger, from: nat): (r: Ledger)
    requires WellFormed(s) && from <= |s.bits|
    ensures WellFormed(r) && |r.bits| == |s.bits|
    decreases |s.bits| - from
  {
    if from == |s.bits| then s else Heal(HealOne(s, from), from + 1)
  }

  /** Healing sets the bit of every extent that holds live bytes and leaves all others alone, and counts what
      it sets. */
  lemma {:induction false} HealSets(s: Ledger, from: nat)
    requires WellFormed(s) && from <= |s.bits|
    ensures var r := Heal(s, from);
      && (forall e :: 0 <= e < |s.bits| ==> r.bits[e] == (s.bits[e] || (e >= from && s.live[e] > 0)))
      && r == s.(bits := r.bits, totalAlloc := r.totalAlloc)
      && r.totalAlloc - SetBits(r.bits) == s.totalAlloc - SetBits(s.bits)
    decreases |s.bits| - from
  {
    if from < |s.bits| {
      if s.live[from] > 0 && !s.bits[from] {
        SetBitsUpdate(s.bits, from, true);
      }
      HealSets(HealOne(s, from), from + 1);
    }
  }

  lemma {:induction false} HealNothing(s: Ledger, from: nat)
    requires WellFormed(s) && from <= |s.bits|
    requires forall e :: from <= e < |s.bits| && s.live[e] > 0 ==> s.bits[e]
    ensures Heal(s, from) == s
    decreases |s.bits| - from
  {
    if from < |s.bits| {
      HealNothing(s, from + 1);
    }
  }

  lemma CoveredRecovery(st: Store, r: Ledger)
    requires StoreOk(st) && Covers(r, st.led)
    ensures forall e :: 0 <= e < |r.bits| && r.bits[e] && !st.led.bits[e] ==>
              e in Leaks(r, Reachable(st.objs), 0)
    ensures Heal(Rebuilt(r, st.objs), 0) == Rebuilt(r, st.objs)
    ensures Rebuilt(r, st.objs).live == st.led.live
  {
    var b := Rebuilt(r, st.objs);
    LeaksAre(r, Reachable(st.objs), 0);
    RebuildAgrees(st);
    assert b.live == Rebuilt(st.led, st.objs).live;
    forall e | 0 <= e < |b.bits| && b.live[e] > 0 ensures b.bits[e] {
      assert LiveAccounts(st.led, st.objs, [], e);
    }
    HealNothing(b, 0);
    forall e | 0 <= e < |r.bits| && r.bits[e] && !st.led.bits[e]
      ensures e in Leaks(r, Reachable(st.objs), 0)
    {
      assert LiveAccounts(st.led, st.objs, [], e);
      forall k | k in Keys(st.objs) ensures k.len > 0 { KeyOk(|st.led.bits|, st.objs, k); }
      NoBytesNoKey(Keys(st.objs), e);
    }
  }

  /** Crash recovery over whole runs. From a checkpoint, replaying the log of any run of transactions
      that add before they release gives a bitmap that contains the one in memory; every extra bit is
      reported as a leak; the rebuilt live bytes are those in memory; and healing changes nothing. */
  lemma ReplayRefinesMemory(st: Store, run: seq<Step>)
    requires StoreOk(st) && RunLegal(st, run) && NothingPinned(st.led)
    requires forall i :: 0 <= i < |run| ==> Replayable(run[i])
    ensures var end := RunAll(st, run);
      var r := Recover(st, run, st.led);
      && Covers(r, end.led)
      && (forall e :: 0 <= e < |r.bits| && r.bits[e] && !end.led.bits[e] ==>
            e in Leaks(r, Reachable(end.objs), 0))
      && Rebuilt(r, end.objs).live == end.led.live
      && Heal(Rebuilt(r, end.objs), 0) == Rebuilt(r, end.objs)
  {
    AccountingOverRuns(st, run);
    CoveredRecovery(RunAll(st, run), Recover(st, run, st.led));
  }
}
