/** Readers' pins.

    Here several transactions run at once: each holds its own draft, and their calls, commit points
    and rollbacks interleave with pins, unpins and leak repairs in any order. */
module Pinning {
  import opened Ledgers
  import opened Rollbacks
  import opened Holdings
  import opened Runs
  import LooseRollbacks

  datatype Shared = Shared(led: Ledger, drafts: map<nat, Staged>)

  datatype Event =
    | Start(id: nat)
    | CallOn(id: nat, c: Call)
    | CommitPoint(id: nat)
    | Finish(id: nat)
    | Undo(id: nat)
    | PinExtents(ids: seq<nat>)
    | UnpinExtents(ids: seq<nat>)
    | FreeLeak(id: nat, e: nat)

  ghost predicate EventLegal(g: Shared, v: Event)
    requires WellFormed(g.led)
  {
    match v
    case Start(id) => id !in g.drafts
    case CallOn(id, c) => id in g.drafts && LooseRollbacks.Possible(Txn(g.led, g.drafts[id]), c)
    case CommitPoint(id) => id in g.drafts && Below(g.drafts[id].cleared, |g.led.bits|)
    case Finish(id) => id in g.drafts
    case Undo(id) => id in g.drafts && DraftInRange(g.led, g.drafts[id])
    case PinExtents(_) => true
    case UnpinExtents(ids) => UnpinLegal(g.led, ids)
    case FreeLeak(id, e) => id in g.drafts && e < |g.led.bits|
  }

  ghost function After(g: Shared, v: Event): (r: Shared)
    requires WellFormed(g.led) && EventLegal(g, v)
    ensures WellFormed(r.led)
  {
    match v
    case Start(id) => g.(drafts := g.drafts[id := EMPTY_DRAFT])
    case CallOn(id, c) =>
      var t := LooseRollbacks.Do(Txn(g.led, g.drafts[id]), c);
      Shared(t.led, g.drafts[id := t.draft])
    case CommitPoint(id) => g.(led := Settle(g.led, g.drafts[id].cleared))
    case Finish(id) => g.(drafts := g.drafts - {id})
    case Undo(id) => Shared(Rollback(g.led, g.drafts[id]), g.drafts - {id})
    case PinExtents(ids) => g.(led := PinAll(g.led, ids))
    case UnpinExtents(ids) => g.(led := UnpinAll(g.led, ids))
    case FreeLeak(id, e) =>
      var t := ReleaseLeaked(Txn(g.led, g.drafts[id]), e);
      Shared(t.led, g.drafts[id := t.draft])
  }

  /** A reader holds a pin on `e`, whose allocation no open transaction could still undo. */
  ghost predicate Held(g: Shared, e: nat) {
    && WellFormed(g.led) && e < |g.led.bits|
    && g.led.bits[e] && g.led.pins[e] > 0
    && forall id :: id in g.drafts ==> e !in Ids(g.drafts[id])
  }

  lemma CallOnHeld(t: Txn, c: Call, e: nat)
    requires WellFormed(t.led) && e < |t.led.bits| && t.led.bits[e] && LooseRollbacks.Possible(t, c) && e !in Ids(t.draft)
    ensures var r := LooseRollbacks.Do(t, c);
      && |r.led.bits| == |t.led.bits| && r.led.bits[e] && r.led.generations[e] == t.led.generations[e]
      && r.led.pins == t.led.pins && r.led.isolated >= t.led.isolated && e !in Ids(r.draft)
  {
    match c
    case CallAllocate(ids, skipped, ranges) =>
      TakeAllAt(Isolate(t.led, skipped), ids);
      IdsAfter(t.draft, ids, ranges);
    case CallNoSpace(ids, skipped) =>
      TakeAllAt(Isolate(t.led, skipped), ids);
      GiveBackAllAt(TakeAll(Isolate(t.led, skipped), ids), ids);
    case CallNote(_) =>
    case CallAdd(segs) =>
      SeenInRange(t.led, segs, []);
      AddSegsFrame(t, multiset(t.draft.inflight), segs);
      RefUpFrame(AddSegs(t, multiset(t.draft.inflight), segs), Seen(segs, []));
    case CallShare(segs) =>
      SeenInRange(t.led, segs, []);
      ShareSegsFrame(t, segs);
      RefUpFrame(ShareSegs(t, segs), Seen(segs, []));
    case CallRelease(segs) =>
      SeenInRange(t.led, segs, []);
      ReleaseKeepsRest(t, segs);
      RefDownFrame(ReleaseSegs(t, segs), Seen(segs, []));
  }

  lemma {:induction false} ReleaseKeepsRest(t: Txn, segs: seq<Seg>)
    requires WellFormed(t.led) && InRange(t.led, segs)
    ensures var r := ReleaseSegs(t, segs);
      && r.led == t.led.(live := r.led.live, shared := r.led.shared)
      && r.draft.alloc == t.draft.alloc
    decreases |segs|
  {
    if segs != [] {
      ReleaseKeepsRest(ReleaseSeg(t, segs[0]), segs[1..]);
    }
  }

  /** An undo of a transaction that did not allocate `e` leaves a set bit set. */
  lemma UndoKeepsBit(s: Ledger, d: Staged, e: nat)
    requires WellFormed(s) && DraftInRange(s, d) && e < |s.bits| && s.bits[e] && e !in Ids(d)
    ensures var r := Rollback(s, d);
      r.bits[e] && r.generations == s.generations && r.pins == s.pins && r.isolated == s.isolated
  {
    UnclearAt(s, d.cleared);
    UnallocateAt(Unclear(s, d.cleared), Ids(d));
  }

  lemma {:induction false} UnpinKeepsOthers(s: Ledger, ids: seq<nat>, e: nat)
    requires WellFormed(s) && UnpinLegal(s, ids) && e < |s.bits|
    requires UnpinAll(s, ids).pins[e] > 0
    ensures var r := UnpinAll(s, ids);
      r.bits[e] == s.bits[e] && r.generations == s.generations && (e in s.isolated ==> e in r.isolated)
    ensures s.pins[e] > 0
    decreases |ids|
  {
    if ids != [] {
      UnpinKeepsOthers(UnpinOne(s, ids[0]), ids[1..], e);
    }
  }

  lemma EventKeepsHeld(g: Shared, v: Event, e: nat)
    requires Held(g, e) && EventLegal(g, v)
    requires |After(g, v).led.bits| == |g.led.bits| && After(g, v).led.pins[e] > 0
    ensures Held(After(g, v), e)
    ensures After(g, v).led.generations[e] == g.led.generations[e]
    ensures e in g.led.isolated ==> e in After(g, v).led.isolated
  {
    match v
    case Start(_) => assert Ids(EMPTY_DRAFT) == [];
    case CallOn(id, c) => CallOnHeld(Txn(g.led, g.drafts[id]), c, e);
    case CommitPoint(id) => SettleAt(g.led, g.drafts[id].cleared);
    case Finish(_) =>
    case Undo(id) => UndoKeepsBit(g.led, g.drafts[id], e);
    case PinExtents(_) =>
    case UnpinExtents(ids) => UnpinKeepsOthers(g.led, ids, e);
    case FreeLeak(id, x) =>
  }

  lemma EventShape(g: Shared, v: Event)
    requires WellFormed(g.led) && EventLegal(g, v)
    ensures |After(g, v).led.bits| == |g.led.bits|
  {
  }

  // ---------- counting pins ----------

  /** The pins that an event adds to an extent, less those that it gives back. */
  function Gained(v: Event, e: nat): int {
    match v
    case PinExtents(ids) => multiset(ids)[e]
    case UnpinExtents(ids) => -(multiset(ids)[e] as int)
    case _ => 0
  }

  /** Nothing else changes the number of pins. */
  lemma EventPins(g: Shared, v: Event, e: nat)
    requires WellFormed(g.led) && EventLegal(g, v) && e < |g.led.bits| == |After(g, v).led.bits|
    ensures After(g, v).led.pins[e] == g.led.pins[e] + Gained(v, e)
  {
    match v
    case Start(_) =>
    case CallOn(id, c) => CallPins(Txn(g.led, g.drafts[id]), c);
    case CommitPoint(id) => SettleAt(g.led, g.drafts[id].cleared);
    case Finish(_) =>
    case Undo(id) =>
      UnclearAt(g.led, g.drafts[id].cleared);
      UnallocateAt(Unclear(g.led, g.drafts[id].cleared), Ids(g.drafts[id]));
    case PinExtents(ids) => PinCounts(g.led, ids, e);
    case UnpinExtents(ids) => UnpinCounts(g.led, ids, e);
    case FreeLeak(_, _) =>
  }

  lemma CallPins(t: Txn, c: Call)
    requires WellFormed(t.led) && LooseRollbacks.Possible(t, c)
    ensures LooseRollbacks.Do(t, c).led.pins == t.led.pins
  {
    match c
    case CallAllocate(ids, skipped, _) => TakeAllAt(Isolate(t.led, skipped), ids);
    case CallNoSpace(ids, skipped) =>
      TakeAllAt(Isolate(t.led, skipped), ids);
      GiveBackAllAt(TakeAll(Isolate(t.led, skipped), ids), ids);
    case CallNote(_) =>
    case CallAdd(segs) =>
      SeenInRange(t.led, segs, []);
      AddSegsFrame(t, multiset(t.draft.inflight), segs);
      RefUpFrame(AddSegs(t, multiset(t.draft.inflight), segs), Seen(segs, []));
    case CallShare(segs) =>
      SeenInRange(t.led, segs, []);
      ShareSegsFrame(t, segs);
      RefUpFrame(ShareSegs(t, segs), Seen(segs, []));
    case CallRelease(segs) =>
      SeenInRange(t.led, segs, []);
      ReleaseKeepsRest(t, segs);
      RefDownFrame(ReleaseSegs(t, segs), Seen(segs, []));
  }

  /** A reader that pins an allocated extent, whose allocation no open transaction could still undo, holds it. */
  lemma PinHolds(g: Shared, ids: seq<nat>, e: nat)
    requires WellFormed(g.led) && e < |g.led.bits| && g.led.bits[e] && e in ids
    requires forall id :: id in g.drafts ==> e !in Ids(g.drafts[id])
    ensures Held(After(g, PinExtents(ids)), e)
  {
    PinCounts(g.led, ids, e);
  }

  /** The events are legal, and others give back no more pins on `e` than `spare`, counting from any
      moment with those that they have added since. */
  ghost predicate OthersUnpin(g: Shared, events: seq<Event>, e: nat, spare: int)
    requires WellFormed(g.led)
    decreases |events|
  {
    && spare >= 0
    && (events == [] ||
        (EventLegal(g, events[0]) && OthersUnpin(After(g, events[0]), events[1..], e, spare + Gained(events[0], e))))
  }

  lemma {:induction false} StaysPinned(g: Shared, events: seq<Event>, e: nat, spare: int)
    requires WellFormed(g.led) && e < |g.led.bits| && g.led.pins[e] > spare && OthersUnpin(g, events, e, spare)
    ensures PinnedThroughout(g, events, e)
    decreases |events|
  {
    if events != [] {
      EventShape(g, events[0]);
      EventPins(g, events[0], e);
      StaysPinned(After(g, events[0]), events[1..], e, spare + Gained(events[0], e));
    }
  }

  /** A run during which the reader's pin on `e` is never given up. */
  ghost predicate PinnedThroughout(g: Shared, events: seq<Event>, e: nat)
    requires WellFormed(g.led) && e < |g.led.bits|
    decreases |events|
  {
    && g.led.pins[e] > 0
    && (events == [] ||
        (EventLegal(g, events[0]) &&
         (EventShape(g, events[0]); PinnedThroughout(After(g, events[0]), events[1..], e))))
  }

  ghost function AfterAll(g: Shared, events: seq<Event>, e: nat): (r: Shared)
    requires WellFormed(g.led) && e < |g.led.bits| && PinnedThroughout(g, events, e)
    ensures WellFormed(r.led) && |r.led.bits| == |g.led.bits| && r.led.pins[e] > 0
    decreases |events|
  {
    if events == [] then g
    else EventShape(g, events[0]); AfterAll(After(g, events[0]), events[1..], e)
  }

  /** From pin to last unpin, whatever else happens, the extent stays allocated, is not handed out
      again, and an isolation that it acquires is not lost. */
  lemma {:induction false} PinnedExtentIsStable(g: Shared, events: seq<Event>, e: nat)
    requires Held(g, e) && PinnedThroughout(g, events, e)
    ensures var r := AfterAll(g, events, e);
      && Held(r, e)
      && r.led.generations[e] == g.led.generations[e]
      && (e in g.led.isolated ==> e in r.led.isolated)
    decreases |events|
  {
    if events != [] {
      EventShape(g, events[0]);
      EventKeepsHeld(g, events[0], e);
      PinnedExtentIsStable(After(g, events[0]), events[1..], e);
    }
  }

  /** What a reader is promised: it pins an allocated extent, and then, as long as the others give back only
      what they have pinned, before or after, the extent stays allocated and is not handed out again. */
  lemma ReaderIsSafe(g: Shared, ids: seq<nat>, events: seq<Event>, e: nat)
    requires WellFormed(g.led) && e < |g.led.bits| && g.led.bits[e] && e in ids
    requires forall id :: id in g.drafts ==> e !in Ids(g.drafts[id])
    requires OthersUnpin(After(g, PinExtents(ids)), events, e, g.led.pins[e])
    ensures var c := After(g, PinExtents(ids));
      && e < |c.led.bits| && PinnedThroughout(c, events, e)
      && Held(AfterAll(c, events, e), e)
      && AfterAll(c, events, e).led.generations[e] == g.led.generations[e]
  {
    var c := After(g, PinExtents(ids));
    PinHolds(g, ids, e);
    PinCounts(g.led, ids, e);
    StaysPinned(c, events, e, g.led.pins[e]);
    PinnedExtentIsStable(c, events, e);
  }

  /** A commit point that finds a pinned extent emptied isolates it instead of freeing it. */
  lemma CommitIsolates(g: Shared, id: nat, e: nat)
    requires Held(g, e) && EventLegal(g, CommitPoint(id)) && e in g.drafts[id].cleared
    ensures After(g, CommitPoint(id)).led.bits[e]
    ensures g.led.live[e] == 0 ==> e in After(g, CommitPoint(id)).led.isolated
  {
    SettleAt(g.led, g.drafts[id].cleared);
  }

  /** The last unpin frees the extent if and only if it is isolated and holds no live bytes. */
  lemma LastUnpinFrees(s: Ledger, e: nat)
    requires WellFormed(s) && e < |s.bits| && s.bits[e] && s.pins[e] == 1
    ensures !UnpinOne(s, e).bits[e] <==> e in s.isolated && s.live[e] == 0
    ensures !UnpinOne(s, e).bits[e] ==>
      UnpinOne(s, e).totalFree == s.totalFree + 1 && e !in UnpinOne(s, e).isolated &&
      UnpinOne(s, e).refcounts[e] == 0 && UnpinOne(s, e).phase[e] == Free
  {
  }

  /** Whole story of an extent that dies while a reader has it pinned: some transaction empties it
      and reaches its commit point; anything may follow; when the reader lets go, it is freed,
      provided that nothing was written to it in the meantime. */
  lemma DiesWhilePinned(g: Shared, id: nat, events: seq<Event>, e: nat)
    requires Held(g, e) && EventLegal(g, CommitPoint(id)) && e in g.drafts[id].cleared && g.led.live[e] == 0
    requires |After(g, CommitPoint(id)).led.bits| == |g.led.bits|
    requires PinnedThroughout(After(g, CommitPoint(id)), events, e)
    requires var r := AfterAll(After(g, CommitPoint(id)), events, e); r.led.pins[e] == 1 && r.led.live[e] == 0
    ensures var r := AfterAll(After(g, CommitPoint(id)), events, e);
      r.led.bits[e] && r.led.generations[e] == g.led.generations[e] && !UnpinOne(r.led, e).bits[e]
  {
    CommitIsolates(g, id, e);
    EventKeepsHeld(g, CommitPoint(id), e);
    PinnedExtentIsStable(After(g, CommitPoint(id)), events, e);
    LastUnpinFrees(AfterAll(After(g, CommitPoint(id)), events, e).led, e);
  }

  // ---------- phases ----------

  /** Where a bit is cleared the extent becomes free, and no phase changes otherwise. */
  ghost predicate FreesCleared(s: Ledger, r: Ledger) {
    && |r.phase| == |s.phase| == |s.bits| == |r.bits|
    && forall e :: 0 <= e < |s.phase| ==>
         (r.phase[e] == s.phase[e] || r.phase[e] == Free) && (s.bits[e] && !r.bits[e] ==> r.phase[e] == Free)
  }

  /** Every time that an extent is handed out its generation goes up by one. */
  lemma {:induction false} TakenAnew(s: Ledger, ids: seq<nat>)
    requires WellFormed(s) && Below(ids, |s.bits|)
    ensures TakeAll(s, ids).phase == s.phase
    ensures forall e :: 0 <= e < |s.bits| ==> TakeAll(s, ids).generations[e] == s.generations[e] + multiset(ids)[e]
    decreases |ids|
  {
    if ids != [] {
      var e := ids[0];
      assert ids == [e] + ids[1..];
      TakenAnew(s.(bits := s.bits[e := true], refcounts := s.refcounts[e := 0],
                     generations := s.generations[e := s.generations[e] + 1],
                     totalAlloc := s.totalAlloc + 1), ids[1..]);
    }
  }

  lemma {:induction false} ReturnedPhases(s: Ledger, ids: seq<nat>)
    requires WellFormed(s) && Below(ids, |s.bits|)
    ensures forall e :: 0 <= e < |s.bits| ==> GiveBackAll(s, ids).phase[e] == if e in ids then Free else s.phase[e]
    decreases |ids|
  {
    if ids != [] {
      var e := ids[0];
      ReturnedPhases(s.(bits := s.bits[e := false], refcounts := s.refcounts[e := 0], live := s.live[e := 0],
                        phase := s.phase[e := Free], totalAlloc := s.totalAlloc - 1), ids[1..]);
    }
  }

  lemma {:induction false} SettledPhases(s: Ledger, cleared: seq<nat>)
    requires WellFormed(s) && Below(cleared, |s.bits|)
    ensures var r := Settle(s, cleared);
      forall e :: 0 <= e < |s.bits| ==>
        r.phase[e] == if e in cleared && s.live[e] == 0 && s.pins[e] == 0 then Free else s.phase[e]
    decreases |cleared|
  {
    if cleared != [] {
      SettledPhases(SettleOne(s, cleared[0]), cleared[1..]);
    }
  }

  lemma {:induction false} UndonePhases(s: Ledger, ids: seq<nat>)
    requires WellFormed(s) && Below(ids, |s.bits|)
    ensures forall e :: 0 <= e < |s.bits| ==> Unallocate(s, ids).phase[e] == if e in ids then Free else s.phase[e]
    decreases |ids|
  {
    if ids != [] {
      var e := ids[0];
      UndonePhases(s.(bits := s.bits[e := false], phase := s.phase[e := Free], totalAlloc := s.totalAlloc - 1), ids[1..]);
    }
  }

  lemma {:induction false} UnpinnedFrees(s: Ledger, ids: seq<nat>)
    requires WellFormed(s) && UnpinLegal(s, ids)
    ensures FreesCleared(s, UnpinAll(s, ids))
    decreases |ids|
  {
    if ids != [] {
      UnpinnedFrees(UnpinOne(s, ids[0]), ids[1..]);
    }
  }

  lemma CallFrees(t: Txn, c: Call)
    requires WellFormed(t.led) && LooseRollbacks.Possible(t, c)
    ensures FreesCleared(t.led, LooseRollbacks.Do(t, c).led)
  {
    match c
    case CallAllocate(ids, skipped, _) =>
      TakeAllAt(Isolate(t.led, skipped), ids);
      TakenAnew(Isolate(t.led, skipped), ids);
    case CallNoSpace(ids, skipped) =>
      var m := TakeAll(Isolate(t.led, skipped), ids);
      TakeAllAt(Isolate(t.led, skipped), ids);
      TakenAnew(Isolate(t.led, skipped), ids);
      GiveBackAllAt(m, ids);
      ReturnedPhases(m, ids);
    case CallNote(_) =>
    case CallAdd(segs) =>
      SeenInRange(t.led, segs, []);
      AddSegsFrame(t, multiset(t.draft.inflight), segs);
      RefUpFrame(AddSegs(t, multiset(t.draft.inflight), segs), Seen(segs, []));
    case CallShare(segs) =>
      SeenInRange(t.led, segs, []);
      ShareSegsFrame(t, segs);
      RefUpFrame(ShareSegs(t, segs), Seen(segs, []));
    case CallRelease(segs) =>
      SeenInRange(t.led, segs, []);
      ReleaseKeepsRest(t, segs);
      RefDownFrame(ReleaseSegs(t, segs), Seen(segs, []));
  }

  /** Whatever interleaves, an extent that is given up becomes Free, and no other phase is touched. */
  lemma EventFrees(g: Shared, v: Event)
    requires WellFormed(g.led) && EventLegal(g, v)
    ensures FreesCleared(g.led, After(g, v).led)
  {
    match v
    case Start(_) =>
    case CallOn(id, c) => CallFrees(Txn(g.led, g.drafts[id]), c);
    case CommitPoint(id) =>
      SettleAt(g.led, g.drafts[id].cleared);
      SettledPhases(g.led, g.drafts[id].cleared);
    case Finish(_) =>
    case Undo(id) =>
      UnclearAt(g.led, g.drafts[id].cleared);
      UnallocateAt(Unclear(g.led, g.drafts[id].cleared), Ids(g.drafts[id]));
      UndonePhases(Unclear(g.led, g.drafts[id].cleared), Ids(g.drafts[id]));
    case PinExtents(_) =>
    case UnpinExtents(ids) => UnpinnedFrees(g.led, ids);
    case FreeLeak(_, _) =>
  }
}
