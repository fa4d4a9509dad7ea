/** The allocator: an object whose methods update the bitmap and the derived counters in place,
    each proved against the corresponding function on ledgers. */
module Allocators {
  import opened Words
  import opened Bitmaps
  import opened Ledgers
  import opened Rollbacks
  import opened Holdings
  import opened Runs
  import opened Rebuilds
  import opened Replays
  import opened Allocation

  class Allocator {
    const bitmap: Bitmap
    var refcounts: seq<nat>
    var generations: seq<nat>
    var live: seq<nat>
    var phase: seq<Phase>
    var shared: map<Seg, nat>
    var pins: seq<nat>
    var isolated: set<nat>
    var totalAlloc: int
    var totalFree: int

    ghost function View(): Ledger
      reads this, bitmap
      requires bitmap.Valid()
    {
      Ledger(bitmap.Bits(), refcounts, generations, live, phase, shared, pins, isolated, totalAlloc, totalFree)
    }

    ghost predicate Valid()
      reads this, bitmap
    {
      bitmap.Valid() && WellFormed(View()) && |View().bits| == bitmap.n
    }

    constructor (n: nat)
      requires n > 0
      ensures Valid() && fresh(bitmap) && View() == NewLedger(n)
    {
      bitmap := new Bitmap(n);
      refcounts := seq(n, _ => 0);
      generations := seq(n, _ => 0);
      live := seq(n, _ => 0);
      phase := seq(n, _ => Free);
      shared := map[];
      pins := seq(n, _ => 0);
      isolated := {};
      totalAlloc, totalFree := 0, 0;
    }

    // ---------- add, note, share ----------

    method NoteInflightSegment(draft: Staged, seg: Seg) returns (d: Staged)
      requires Valid() && seg.ext < |live|
      modifies this`live
      ensures Valid() && Txn(View(), d) == NoteInflight(old(Txn(View(), draft)), seg)
    {
      live := live[seg.ext := (live[seg.ext] + seg.len) % U32];
      var key := (seg.ext, seg.len);
      d := draft.(liveInc := draft.liveInc + [key], inflight := draft.inflight + [key]);
    }

    method AddObject(draft: Staged, segs: seq<Seg>) returns (d: Staged)
      requires Valid() && InRange(View(), segs)
      modifies this`live, this`refcounts
      ensures Valid() && Txn(View(), d) == Ledgers.AddObject(old(Txn(View(), draft)), segs)
    {
      ghost var begin := Txn(View(), draft);
      SeenInRange(begin.led, segs, []);
      d := draft;
      var pre, seen := multiset(draft.inflight), [];
      for i := 0 to |segs|
        invariant Valid() && |live| == |begin.led.bits|
        invariant AddSegs(Txn(View(), d), pre, segs[i..]) == AddSegs(begin, multiset(draft.inflight), segs)
        invariant Seen(segs[i..], seen) == Seen(segs, [])
      {
        var s := segs[i];
        assert segs[i..][1..] == segs[i + 1..];
        var key := (s.ext, s.len);
        if key in pre {
          pre := pre - multiset{key};
        } else {
          d := CountBytes(d, key);
        }
        if s.ext !in seen {
          seen := seen + [s.ext];
        }
      }
      assert segs[|segs|..] == [];
      d := CountUp(d, seen);
    }

    method CountBytes(draft: Staged, key: (nat, nat)) returns (d: Staged)
      requires Valid() && key.0 < |live|
      modifies this`live
      ensures Valid() && Txn(View(), d) == GainLive(old(Txn(View(), draft)), key)
    {
      live := live[key.0 := (live[key.0] + key.1) % U32];
      d := draft.(liveInc := draft.liveInc + [key]);
    }

    method CountUp(draft: Staged, ids: seq<nat>) returns (d: Staged)
      requires Valid() && Below(ids, |refcounts|)
      modifies this`refcounts
      ensures Valid() && Txn(View(), d) == RefUp(old(Txn(View(), draft)), ids)
    {
      ghost var begin := Txn(View(), draft);
      d := draft;
      for i := 0 to |ids|
        invariant Valid() && |refcounts| == |begin.led.bits|
        invariant RefUp(Txn(View(), d), ids[i..]) == RefUp(begin, ids)
      {
        assert ids[i..][1..] == ids[i + 1..];
        d := CountUpOne(d, ids[i]);
      }
      assert ids[|ids|..] == [];
    }

    method CountUpOne(draft: Staged, id: nat) returns (d: Staged)
      requires Valid() && id < |refcounts|
      modifies this`refcounts
      ensures Valid() && Txn(View(), d) == RefUpOne(old(Txn(View(), draft)), id)
    {
      refcounts := refcounts[id := (refcounts[id] + 1) % U32];
      d := draft.(refcountInc := draft.refcountInc + [id]);
    }

    method ShareObject(draft: Staged, segs: seq<Seg>) returns (d: Staged)
      requires Valid() && InRange(View(), segs)
      modifies this`shared, this`refcounts
      ensures Valid() && Txn(View(), d) == Ledgers.ShareObject(old(Txn(View(), draft)), segs)
    {
      ghost var begin := Txn(View(), draft);
      SeenInRange(begin.led, segs, []);
      d := draft;
      var seen := [];
      for i := 0 to |segs|
        invariant Valid() && |refcounts| == |begin.led.bits|
        invariant ShareSegs(Txn(View(), d), segs[i..]) == ShareSegs(begin, segs)
        invariant Seen(segs[i..], seen) == Seen(segs, [])
      {
        var s := segs[i];
        assert segs[i..][1..] == segs[i + 1..];
        d := ShareSegment(d, s);
        if s.ext !in seen {
          seen := seen + [s.ext];
        }
      }
      assert segs[|segs|..] == [];
      d := CountUp(d, seen);
    }

    method ShareSegment(draft: Staged, s: Seg) returns (d: Staged)
      requires Valid()
      modifies this`shared
      ensures Valid()
      ensures View() == old(View()).(shared := old(shared)[s := Holding(Entry(old(shared), s)) + 1])
      ensures d == draft.(sharedInc := draft.sharedInc + [s])
    {
      var n := if s in shared then shared[s] else 1;
      shared := shared[s := n + 1];
      d := draft.(sharedInc := draft.sharedInc + [s]);
    }

    // ---------- release ----------

    method ReleaseObject(draft: Staged, segs: seq<Seg>) returns (d: Staged)
      requires Valid() && InRange(View(), segs)
      modifies this`shared, this`live, this`refcounts
      ensures Valid() && Txn(View(), d) == Ledgers.ReleaseObject(old(Txn(View(), draft)), segs)
    {
      ghost var begin := Txn(View(), draft);
      SeenInRange(begin.led, segs, []);
      d := draft;
      var seen := [];
      for i := 0 to |segs|
        invariant Valid() && |live| == |begin.led.bits|
        invariant ReleaseSegs(Txn(View(), d), segs[i..]) == ReleaseSegs(begin, segs)
        invariant Seen(segs[i..], seen) == Seen(segs, [])
      {
        var s := segs[i];
        assert segs[i..][1..] == segs[i + 1..];
        d := ReleaseSegment(d, s);
        if s.ext !in seen {
          seen := seen + [s.ext];
        }
      }
      assert segs[|segs|..] == [];
      d := CountDown(d, seen);
    }

    method ReleaseSegment(draft: Staged, s: Seg) returns (d: Staged)
      requires Valid() && s.ext < |live|
      modifies this`shared, this`live
      ensures Valid() && Txn(View(), d) == ReleaseSeg(old(Txn(View(), draft)), s)
    {
      d := draft;
      if s in shared {
        d := d.(sharedDec := d.sharedDec + [s]);
        if shared[s] > 1 {
          shared := shared[s := shared[s] - 1];
        } else {
          shared := shared - {s};
          d := DecrementLive(d, s.ext, s.len);
        }
      } else {
        d := DecrementLive(d, s.ext, s.len);
      }
    }

    method DecrementLive(draft: Staged, id: nat, len: nat) returns (d: Staged)
      requires Valid() && id < |live|
      modifies this`live
      ensures Valid() && Txn(View(), d) == DecLive(old(Txn(View(), draft)), id, len)
    {
      d := draft;
      var prev := live[id];
      if prev < len {
        return;
      }
      live := live[id := prev - len];
      if prev > len {
        d := d.(liveDec := d.liveDec + [(id, len)]);
        return;
      }
      d := d.(cleared := d.cleared + [id], refDec := d.refDec + [id], liveDec := d.liveDec + [(id, len)]);
    }

    method CountDown(draft: Staged, ids: seq<nat>) returns (d: Staged)
      requires Valid() && Below(ids, |refcounts|)
      modifies this`refcounts
      ensures Valid() && Txn(View(), d) == RefDown(old(Txn(View(), draft)), ids)
    {
      ghost var begin := Txn(View(), draft);
      d := draft;
      for i := 0 to |ids|
        invariant Valid() && |refcounts| == |begin.led.bits|
        invariant RefDown(Txn(View(), d), ids[i..]) == RefDown(begin, ids)
      {
        assert ids[i..][1..] == ids[i + 1..];
        d := CountDownOne(d, ids[i]);
      }
      assert ids[|ids|..] == [];
    }

    /** A count that is already zero stays zero and is not recorded. */
    method CountDownOne(draft: Staged, id: nat) returns (d: Staged)
      requires Valid() && id < |refcounts|
      modifies this`refcounts
      ensures Valid()
      ensures Txn(View(), d) ==
        if old(refcounts)[id] == 0 then old(Txn(View(), draft))
        else Txn(old(View()).(refcounts := old(refcounts)[id := old(refcounts)[id] - 1]),
                 draft.(refcountDec := draft.refcountDec + [id]))
    {
      d := draft;
      if refcounts[id] != 0 {
        refcounts := refcounts[id := refcounts[id] - 1];
        d := d.(refcountDec := d.refcountDec + [id]);
      }
    }

    // ---------- commit ----------

    method ToAllocDraft(staged: Staged) returns (rec: Record)
      requires Valid() && Below(staged.cleared, |live|)
      modifies this`isolated, this`phase, this`totalFree, bitmap`words
      ensures Valid() && View() == Settle(old(View()), staged.cleared)
      ensures rec == RecordOf(staged)
    {
      ghost var begin := View();
      for i := 0 to |staged.cleared|
        invariant Valid() && |live| == |begin.bits|
        invariant Settle(View(), staged.cleared[i..]) == Settle(begin, staged.cleared)
      {
        assert staged.cleared[i..][1..] == staged.cleared[i + 1..];
        SettleExtent(staged.cleared[i]);
      }
      assert staged.cleared[|staged.cleared|..] == [];
      rec := Record(staged.alloc, staged.refInc, staged.refDec);
    }

    method SettleExtent(id: nat)
      requires Valid() && id < |live|
      modifies this`isolated, this`phase, this`totalFree, bitmap`words
      ensures Valid() && View() == SettleOne(old(View()), id)
    {
      if live[id] > 0 {
        return;
      }
      if pins[id] > 0 {
        isolated := isolated + {id};
        return;
      }
      FreeExtent(id);
    }

    /** Clears a bit, counting it only if it was set, and marks the extent free. */
    method FreeExtent(id: nat)
      requires Valid() && id < |live|
      modifies this`phase, this`totalFree, bitmap`words
      ensures Valid()
      ensures View() == old(View()).(
                bits := old(View()).bits[id := false],
                totalFree := if old(View()).bits[id] then old(totalFree) + 1 else old(totalFree),
                phase := old(phase)[id := Free])
    {
      var isSet := bitmap.Test(id);
      if isSet {
        var _ := bitmap.ClearBit(id);
        totalFree := totalFree + 1;
      }
      phase := phase[id := Free];
    }

    // ---------- allocate ----------

    /** Hands out `count` distinct clear unpinned extents, or fails when fewer exist. Pinned extents
        that the scan runs into are set aside. On failure the draft is untouched and what had been
        taken is given back. */
    method Allocate(draft: Staged, count: nat, hint: nat)
      returns (r: AllocResult, d: Staged, hint': nat, ghost skipped: set<nat>, ghost taken: seq<nat>)
      requires Valid()
      modifies this, bitmap`words
      ensures Valid()
      ensures MayTake(old(View()), taken, skipped) && Below(taken, |old(View()).bits|)
      ensures r.NoSpace? <==> |Available(old(View()))| < count
      ensures r.NoSpace? ==>
        d == draft && View() == AllocateNoSpace(old(Txn(View(), draft)), taken, skipped).led
      ensures r.Allocated? ==>
        && |r.ids| == count && r.ids == taken
        && multiset(Expand(Ranges(r.ids))) == multiset(r.ids)
        && Txn(View(), d) == Ledgers.Allocate(old(Txn(View(), draft)), taken, skipped, Ranges(r.ids))
    {
      ghost var begin := View();
      var out, exhausted;
      out, exhausted, hint', skipped := TakeMany(count, hint);
      taken := out;
      ProgressBits(begin, View(), out, skipped);
      EnoughAvailable(begin, out, skipped);
      if exhausted {
        GiveBack(out);
        return NoSpace, draft, hint', skipped, taken;
      }
      RangesExpand(out);
      var ranges := CompressRanges(out);
      d := draft.(alloc := draft.alloc + ranges);
      r := Allocated(out);
    }

    /** Takes extents until there are `count` of them or the bitmap is full. */
    method TakeMany(count: nat, hint: nat)
      returns (out: seq<nat>, exhausted: bool, hint': nat, ghost skipped: set<nat>)
      requires Valid()
      modifies this`isolated, this`refcounts, this`generations, this`totalAlloc, bitmap`words
      ensures Valid() && |live| == |old(View()).bits|
      ensures Progress(old(View()), View(), out, skipped)
      ensures if exhausted then |out| < count && |Available(old(View()))| == |out| else |out| == count
    {
      ghost var begin := View();
      out, skipped, hint' := [], {}, hint;
      assert Isolate(begin, {}).bits == begin.bits;
      while |out| < count
        invariant Valid() && |out| <= count && |View().bits| == |begin.bits|
        invariant Progress(begin, View(), out, skipped)
        invariant |out| + |skipped| <= |begin.bits|
        decreases |begin.bits| - |out| - |skipped|
      {
        ghost var s := View();
        ProgressBits(begin, s, out, skipped);
        var next;
        next, hint' := TakeNext(hint');
        match next {
          case Full =>
            ExhaustedAvailable(begin, out, skipped, s.bits);
            return out, true, hint', skipped;
          case Aside(id) =>
            ProgressSkip(begin, s, out, skipped, id);
            skipped := skipped + {id};
          case Took(id) =>
            ProgressTake(begin, s, out, skipped, id);
            out := out + [id];
        }
      }
      exhausted := false;
    }

    method TakeNext(hint: nat) returns (next: Turned, hint': nat)
      requires Valid()
      modifies this`isolated, this`refcounts, this`generations, this`totalAlloc, bitmap`words
      ensures Valid()
      ensures next.Full? ==>
        View() == old(View()) && forall e :: 0 <= e < |old(View()).bits| ==> old(View()).bits[e]
      ensures next.Aside? ==>
        && next.id < |old(View()).bits| && !old(View()).bits[next.id] && old(pins)[next.id] > 0
        && View() == SetAside(old(View()), next.id)
      ensures next.Took? ==>
        && next.id < |old(View()).bits| && !old(View()).bits[next.id] && old(pins)[next.id] == 0
        && View() == TookOne(old(View()), next.id)
    {
      var id;
      id, hint' := bitmap.AllocOne(hint);
      if id.None? {
        return Full, hint';
      }
      if pins[id.value] > 0 {
        isolated := isolated + {id.value};
        return Aside(id.value), hint';
      }
      StampTaken(id.value);
      return Took(id.value), hint';
    }

    method StampTaken(id: nat)
      requires Valid() && id < |live|
      modifies this`refcounts, this`generations, this`totalAlloc
      ensures Valid()
      ensures View() == old(View()).(refcounts := old(refcounts)[id := 0],
                generations := old(generations)[id := old(generations)[id] + 1], totalAlloc := old(totalAlloc) + 1)
    {
      refcounts := refcounts[id := 0];
      generations := generations[id := generations[id] + 1];
      totalAlloc := totalAlloc + 1;
    }

    method GiveBack(ids: seq<nat>)
      requires Valid() && Below(ids, |live|)
      modifies this, bitmap`words
      ensures Valid() && View() == GiveBackAll(old(View()), ids)
    {
      ghost var begin := View();
      for i := 0 to |ids|
        invariant Valid() && |live| == |begin.bits|
        invariant GiveBackAll(View(), ids[i..]) == GiveBackAll(begin, ids)
      {
        assert ids[i..][1..] == ids[i + 1..];
        GiveBackOne(ids[i]);
      }
      assert ids[|ids|..] == [];
    }

    method GiveBackOne(id: nat)
      requires Valid() && id < |live|
      modifies this, bitmap`words
      ensures Valid()
      ensures View() == old(View()).(bits := old(View()).bits[id := false], refcounts := old(refcounts)[id := 0],
                live := old(live)[id := 0], phase := old(phase)[id := Free], totalAlloc := old(totalAlloc) - 1)
    {
      var _ := bitmap.ClearBit(id);
      refcounts := refcounts[id := 0];
      live := live[id := 0];
      phase := phase[id := Free];
      totalAlloc := totalAlloc - 1;
    }

    /** Allocates one extent inside a device's window, or none when the window is full. */
    method AllocateInRange(draft: Staged, start: nat, count: nat, hint: nat)
      returns (r: Option<nat>, d: Staged, hint': nat, ghost skipped: set<nat>)
      requires Valid() && start + count <= |live|
      modifies this`isolated, this`refcounts, this`generations, this`totalAlloc, bitmap`words
      ensures Valid()
      ensures r.None? ==>
        && d == draft && View() == TakeAll(Isolate(old(View()), skipped), [])
        && MayTake(old(View()), [], skipped)
        && forall e :: start <= e < start + count ==> old(View()).bits[e] || old(pins)[e] > 0
      ensures r.Some? ==>
        && start <= r.value < start + count
        && MayTake(old(View()), [r.value], skipped)
        && Txn(View(), d) == Ledgers.Allocate(old(Txn(View(), draft)), [r.value], skipped, [(r.value, 1)])
    {
      ghost var begin := View();
      skipped, hint', d := {}, hint, draft;
      assert Isolate(begin, {}).bits == begin.bits;
      while true
        invariant Valid() && |View().bits| == |begin.bits| && pins == begin.pins
        invariant Progress(begin, View(), [], skipped) && |skipped| <= |begin.bits|
        decreases |begin.bits| - |skipped|
      {
        ghost var s := View();
        ProgressBits(begin, s, [], skipped);
        var next;
        next, hint' := TakeNextInRange(start, count, hint');
        match next {
          case Full => return None, draft, hint', skipped;
          case Aside(id) =>
            ProgressSkip(begin, s, [], skipped, id);
            skipped := skipped + {id};
          case Took(id) =>
            ProgressTake(begin, s, [], skipped, id);
            assert [] + [id] == [id];
            d := draft.(alloc := draft.alloc + [(id, 1)]);
            return Some(id), d, hint', skipped;
        }
      }
    }

    method TakeNextInRange(start: nat, count: nat, hint: nat) returns (next: Turned, hint': nat)
      requires Valid() && start + count <= |live|
      modifies this`isolated, this`refcounts, this`generations, this`totalAlloc, bitmap`words
      ensures Valid()
      ensures next.Full? ==>
        View() == old(View()) && forall e :: start <= e < start + count ==> old(View()).bits[e]
      ensures !next.Full? ==> start <= next.id < start + count && !old(View()).bits[next.id]
      ensures next.Aside? ==> old(pins)[next.id] > 0 && View() == SetAside(old(View()), next.id)
      ensures next.Took? ==> old(pins)[next.id] == 0 && View() == TookOne(old(View()), next.id)
    {
      var id;
      id, hint' := bitmap.AllocOneInRange(hint, start, count);
      if id.None? {
        return Full, hint';
      }
      if pins[id.value] > 0 {
        isolated := isolated + {id.value};
        return Aside(id.value), hint';
      }
      StampTaken(id.value);
      return Took(id.value), hint';
    }

    // ---------- rollback ----------

    method Rollback(draft: Staged)
      requires Valid() && DraftInRange(View(), draft)
      modifies this, bitmap`words
      ensures Valid() && View() == Ledgers.Rollback(old(View()), draft)
    {
      SetAgain(draft.cleared);
      ClearRanges(draft.alloc);
      MoveLive(draft.liveDec, true);
      MoveLive(draft.liveInc, false);
      UndoShares(draft.sharedInc, draft.sharedDec);
      MoveRefs(draft.refcountDec, true);
      MoveRefs(draft.refcountInc, false);
    }

    method SetAgain(ids: seq<nat>)
      requires Valid() && Below(ids, |live|)
      modifies this`totalFree, bitmap`words
      ensures Valid() && View() == Unclear(old(View()), ids)
    {
      ghost var begin := View();
      for i := 0 to |ids|
        invariant Valid() && |live| == |begin.bits|
        invariant Unclear(View(), ids[i..]) == Unclear(begin, ids)
      {
        assert ids[i..][1..] == ids[i + 1..];
        SetAgainOne(ids[i]);
      }
      assert ids[|ids|..] == [];
    }

    method SetAgainOne(id: nat)
      requires Valid() && id < |live|
      modifies this`totalFree, bitmap`words
      ensures Valid()
      ensures View() == if old(View()).bits[id] then old(View())
        else old(View()).(bits := old(View()).bits[id := true], totalFree := old(totalFree) - 1)
    {
      var isSet := bitmap.Test(id);
      if !isSet {
        var _ := bitmap.SetBit(id);
        totalFree := totalFree - 1;
      }
    }

    method ClearRanges(ranges: seq<(nat, nat)>)
      requires Valid() && Below(Expand(ranges), |live|)
      modifies this`phase, this`totalAlloc, bitmap`words
      ensures Valid() && View() == Unallocate(old(View()), Expand(ranges))
    {
      ghost var begin := View();
      for i := 0 to |ranges|
        invariant Valid() && |live| == |begin.bits| && Below(Expand(ranges[i..]), |live|)
        invariant Unallocate(View(), Expand(ranges[i..])) == Unallocate(begin, Expand(ranges))
      {
        var (start, count) := ranges[i];
        assert ranges[i..][1..] == ranges[i + 1..];
        ghost var rest := Expand(ranges[i + 1..]);
        assert Expand(ranges[i..]) == Span(start, count) + rest;
        BelowParts(Span(start, count), rest, |live|);
        UnallocateParts(View(), Span(start, count), rest);
        ClearSpan(start, count);
      }
      assert ranges[|ranges|..] == [];
    }

    method ClearSpan(start: nat, count: nat)
      requires Valid() && Below(Span(start, count), |live|)
      modifies this`phase, this`totalAlloc, bitmap`words
      ensures Valid() && View() == Unallocate(old(View()), Span(start, count))
    {
      ghost var begin, ids := View(), Span(start, count);
      for id := start to start + count
        invariant Valid() && |live| == |begin.bits|
        invariant Unallocate(View(), ids[id - start..]) == Unallocate(begin, ids)
      {
        assert ids[id - start..][1..] == ids[id + 1 - start..];
        ClearOne(id);
      }
      assert ids[count..] == [];
    }

    method ClearOne(id: nat)
      requires Valid() && id < |live|
      modifies this`phase, this`totalAlloc, bitmap`words
      ensures Valid()
      ensures View() == old(View()).(bits := old(View()).bits[id := false], phase := old(phase)[id := Free],
                                     totalAlloc := old(totalAlloc) - 1)
    {
      var _ := bitmap.ClearBit(id);
      phase := phase[id := Free];
      totalAlloc := totalAlloc - 1;
    }

    method MoveLive(deltas: seq<(nat, nat)>, up: bool)
      requires Valid() && KeysBelow(deltas, |live|)
      modifies this`live
      ensures Valid() && View() == old(View()).(live := ShiftLive(old(live), deltas, up))
    {
      ghost var begin := live;
      for i := 0 to |deltas|
        invariant Valid() && |live| == |begin|
        invariant ShiftLive(live, deltas[i..], up) == ShiftLive(begin, deltas, up)
      {
        var (id, len) := deltas[i];
        assert deltas[i..][1..] == deltas[i + 1..];
        live := live[id := Shift(live[id], len, up)];
      }
      assert deltas[|deltas|..] == [];
    }

    method MoveRefs(ids: seq<nat>, up: bool)
      requires Valid() && Below(ids, |refcounts|)
      modifies this`refcounts
      ensures Valid() && View() == old(View()).(refcounts := ShiftRefs(old(refcounts), ids, up))
    {
      ghost var begin := refcounts;
      for i := 0 to |ids|
        invariant Valid() && |refcounts| == |begin|
        invariant ShiftRefs(refcounts, ids[i..], up) == ShiftRefs(begin, ids, up)
      {
        assert ids[i..][1..] == ids[i + 1..];
        refcounts := refcounts[ids[i] := Shift(refcounts[ids[i]], 1, up)];
      }
      assert ids[|ids|..] == [];
    }

    method UndoShares(inc: seq<Seg>, dec: seq<Seg>)
      requires Valid()
      modifies this`shared
      ensures Valid() && View() == old(View()).(shared := Reshare(Unshare(old(shared), inc), dec))
    {
      ghost var begin := shared;
      for i := 0 to |inc|
        invariant Valid() && Unshare(shared, inc[i..]) == Unshare(begin, inc)
      {
        var k := inc[i];
        assert inc[i..][1..] == inc[i + 1..];
        if k in shared {
          shared := if shared[k] > 2 then shared[k := shared[k] - 1] else shared - {k};
        }
      }
      assert inc[|inc|..] == [];
      ghost var mid := shared;
      for i := 0 to |dec|
        invariant Valid() && Reshare(shared, dec[i..]) == Reshare(mid, dec)
      {
        var k := dec[i];
        assert dec[i..][1..] == dec[i + 1..];
        shared := if k in shared then shared[k := shared[k] + 1] else shared[k := 1];
      }
      assert dec[|dec|..] == [];
    }

    // ---------- pins ----------

    method Pin(ids: seq<nat>)
      requires Valid()
      modifies this`pins
      ensures Valid() && View() == PinAll(old(View()), ids)
    {
      ghost var begin := View();
      for i := 0 to |ids|
        invariant Valid() && PinAll(View(), ids[i..]) == PinAll(begin, ids)
      {
        assert ids[i..][1..] == ids[i + 1..];
        if ids[i] < |pins| {
          pins := pins[ids[i] := pins[ids[i]] + 1];
        }
      }
      assert ids[|ids|..] == [];
    }

    method Unpin(ids: seq<nat>)
      requires Valid() && UnpinLegal(View(), ids)
      modifies this, bitmap`words
      ensures Valid() && View() == UnpinAll(old(View()), ids)
    {
      ghost var begin := View();
      for i := 0 to |ids|
        invariant Valid() && UnpinLegal(View(), ids[i..])
        invariant UnpinAll(View(), ids[i..]) == UnpinAll(begin, ids)
      {
        assert ids[i..][1..] == ids[i + 1..];
        UnpinExtent(ids[i]);
      }
      assert ids[|ids|..] == [];
    }

    method UnpinExtent(id: nat)
      requires Valid() && (id < |pins| ==> pins[id] > 0)
      modifies this, bitmap`words
      ensures Valid() && View() == UnpinOne(old(View()), id)
    {
      if id >= |pins| {
        return;
      }
      var prev := pins[id];
      pins := pins[id := prev - 1];
      if prev == 1 && id in isolated {
        isolated := isolated - {id};
        if pins[id] > 0 || live[id] > 0 {
          isolated := isolated + {id};
          return;
        }
        FreeExtent(id);
        refcounts := refcounts[id := 0];
      }
    }

    // ---------- recovery ----------

    method ApplyRecord(rec: Record)
      requires Valid() && RecordInRange(|live|, rec)
      modifies this, bitmap`words
      ensures Valid() && View() == Replays.ApplyRecord(old(View()), rec)
    {
      var ids := ExpandRanges(rec.alloc);
      ReplayAllocs(ids);
      ReplayIncs(rec.refInc);
      ReplayDecs(rec.refDec, ids + rec.refInc);
    }

    method ReplayAllocs(ids: seq<nat>)
      requires Valid() && Below(ids, |live|)
      modifies this`refcounts, this`generations, this`totalAlloc, bitmap`words
      ensures Valid() && View() == ReplayAlloc(old(View()), ids)
    {
      ghost var begin := View();
      for i := 0 to |ids|
        invariant Valid() && |live| == |begin.bits|
        invariant ReplayAlloc(View(), ids[i..]) == ReplayAlloc(begin, ids)
      {
        assert ids[i..][1..] == ids[i + 1..];
        ReplayAllocAt(ids[i]);
      }
      assert ids[|ids|..] == [];
    }

    method ReplayAllocAt(id: nat)
      requires Valid() && id < |live|
      modifies this`refcounts, this`generations, this`totalAlloc, bitmap`words
      ensures Valid() && View() == ReplayAllocOne(old(View()), id)
    {
      var changed := bitmap.SetBit(id);
      if changed {
        refcounts := refcounts[id := 1];
        generations := generations[id := generations[id] + 1];
        totalAlloc := totalAlloc + 1;
      }
    }

    method ReplayIncs(ids: seq<nat>)
      requires Valid() && Below(ids, |live|)
      modifies this`refcounts
      ensures Valid() && View() == ReplayInc(old(View()), ids)
    {
      ghost var begin := View();
      for i := 0 to |ids|
        invariant Valid() && |live| == |begin.bits|
        invariant ReplayInc(View(), ids[i..]) == ReplayInc(begin, ids)
      {
        assert ids[i..][1..] == ids[i + 1..];
        ReplayIncAt(ids[i]);
      }
      assert ids[|ids|..] == [];
    }

    method ReplayIncAt(id: nat)
      requires Valid() && id < |live|
      modifies this`refcounts
      ensures Valid() && View() == ReplayIncOne(old(View()), id)
    {
      var isSet := bitmap.Test(id);
      if isSet {
        refcounts := refcounts[id := (refcounts[id] + 1) % U32];
      }
    }

    method ReplayDecs(ids: seq<nat>, retained: seq<nat>)
      requires Valid() && Below(ids, |live|)
      modifies this, bitmap`words
      ensures Valid() && View() == ReplayDec(old(View()), ids, retained)
    {
      ghost var begin := View();
      for i := 0 to |ids|
        invariant Valid() && |live| == |begin.bits|
        invariant ReplayDec(View(), ids[i..], retained) == ReplayDec(begin, ids, retained)
      {
        assert ids[i..][1..] == ids[i + 1..];
        ReplayDecAt(ids[i], retained);
      }
      assert ids[|ids|..] == [];
    }

    method ReplayDecAt(id: nat, retained: seq<nat>)
      requires Valid() && id < |live|
      modifies this, bitmap`words
      ensures Valid() && View() == ReplayDecOne(old(View()), id, retained)
    {
      if id in retained {
        return;
      }
      var isSet := bitmap.Test(id);
      if isSet {
        var _ := bitmap.ClearBit(id);
        refcounts := refcounts[id := 0];
        live := live[id := 0];
        phase := phase[id := Free];
        totalFree := totalFree + 1;
      }
    }

    /** The allocated extents that the metadata does not reach. */
    method FindLeaks(reachable: set<nat>) returns (out: seq<nat>)
      requires Valid()
      ensures out == Leaks(View(), reachable, 0)
    {
      out := [];
      ghost var s := View();
      for id := 0 to bitmap.n
        invariant out + Leaks(s, reachable, id) == Leaks(s, reachable, 0)
      {
        var isSet := bitmap.Test(id);
        ghost var rest := Leaks(s, reachable, id + 1);
        if isSet && id !in reachable {
          assert out + ([id] + rest) == (out + [id]) + rest;
          out := out + [id];
        } else {
          assert [] + rest == rest;
        }
      }
    }

    method HealBitmap() returns (healed: nat)
      requires Valid()
      modifies this`totalAlloc, bitmap`words
      ensures Valid() && View() == Heal(old(View()), 0)
      ensures totalAlloc == old(totalAlloc) + healed
    {
      ghost var begin := View();
      healed := 0;
      for id := 0 to bitmap.n
        invariant Valid() && bitmap.n == |begin.bits| && totalAlloc == old(totalAlloc) + healed
        invariant Heal(View(), id) == Heal(begin, 0)
      {
        var fixed := HealAt(id);
        if fixed {
          healed := healed + 1;
        }
      }
    }

    method HealAt(id: nat) returns (fixed: bool)
      requires Valid() && id < |live|
      modifies this`totalAlloc, bitmap`words
      ensures Valid() && View() == Replays.HealOne(old(View()), id)
      ensures totalAlloc == old(totalAlloc) + if fixed then 1 else 0
    {
      var isSet := bitmap.Test(id);
      if live[id] > 0 && !isSet {
        var _ := bitmap.SetBit(id);
        totalAlloc := totalAlloc + 1;
        return true;
      }
      return false;
    }

    method FreeLeaked(draft: Staged, id: nat) returns (freed: bool, d: Staged)
      requires Valid() && id < |live|
      modifies this, bitmap`words
      ensures Valid() && Txn(View(), d) == ReleaseLeaked(old(Txn(View(), draft)), id)
      ensures freed == (old(View()).bits[id] && old(pins)[id] == 0)
    {
      var isSet := bitmap.Test(id);
      if !isSet || pins[id] > 0 {
        return false, draft;
      }
      var _ := bitmap.ClearBit(id);
      refcounts := refcounts[id := 0];
      live := live[id := 0];
      phase := phase[id := Free];
      totalFree := totalFree + 1;
      return true, draft.(refDec := draft.refDec + [id], cleared := draft.cleared + [id]);
    }

    // ---------- startup ----------

    /** Recomputes the derived state from the live objects. */
    method RebuildDerived(objects: seq<Object>)
      requires Valid() && ObjectsInRange(|live|, objects)
      modifies this`live, this`refcounts, this`phase, this`shared
      ensures Valid() && View() == Rebuilt(old(View()), objects)
    {
      ghost var begin := View();
      refcounts := seq(|refcounts|, _ => 0);
      phase := seq(|phase|, _ => Sealed);
      var uniq: map<Seg, nat> := map[];
      for i := 0 to |objects|
        invariant Valid() && |refcounts| == |begin.bits|
        invariant View() == begin.(refcounts := refcounts, phase := phase) && phase == seq(|begin.bits|, _ => Sealed)
        invariant Counted(uniq, objects[..i])
        invariant RefsCounted(refcounts, objects[..i])
      {
        assert objects[..i + 1] == objects[..i] + [objects[i]];
        var more := CountKeys(uniq, objects[i]);
        CountedAppend(uniq, more, objects[..i], objects[i]);
        uniq := more;
        CountExtents(objects[i], objects[..i]);
      }
      assert objects[..|objects|] == objects;
      live, shared := FillFrom(uniq, |live|, objects);
      assert View() == Rebuilt(begin, objects) by {
        assert refcounts == Rebuilt(begin, objects).refcounts;
        assert live == Rebuilt(begin, objects).live;
        assert shared == Rebuilt(begin, objects).shared;
      }
    }

    /** One object more touches each of its extents. */
    method CountExtents(segs: seq<Seg>, ghost before: seq<Object>)
      requires Valid() && InRange(View(), segs) && RefsCounted(refcounts, before)
      modifies this`refcounts
      ensures Valid() && View() == old(View()).(refcounts := refcounts)
      ensures |refcounts| == |old(refcounts)| && RefsCounted(refcounts, before + [segs])
    {
      ghost var begin := Txn(View(), EMPTY_DRAFT);
      SeenInRange(begin.led, segs, []);
      var seen := [];
      for i := 0 to |segs|
        invariant Seen(segs[i..], seen) == Seen(segs, [])
      {
        assert segs[i..][1..] == segs[i + 1..];
        if segs[i].ext !in seen {
          seen := seen + [segs[i].ext];
        }
      }
      assert segs[|segs|..] == [];
      var _ := CountUp(EMPTY_DRAFT, seen);
      RefUpFrame(begin, seen);
      forall e | 0 <= e < |refcounts| ensures refcounts[e] == Touching(before + [segs], e) % U32 {
        SeenTouches(segs, e);
        RefUpAt(begin, seen, e);
        TouchingAppend(before, segs, e);
        ModShift(Touching(before, e), 1);
      }
    }
  }

  /** Live bytes and share entries from the holder totals of the distinct segments. */
  method FillFrom(uniq: map<Seg, nat>, n: nat, ghost objects: seq<Object>)
    returns (live: seq<nat>, shared: map<Seg, nat>)
    requires Counted(uniq, objects) && ObjectsInRange(n, objects)
    ensures |live| == n && forall e :: 0 <= e < n ==> live[e] == Bytes(Keys(objects), e) % U32
    ensures shared == map k | k in Keys(objects) && Holders(objects, k) > 1 :: Holders(objects, k)
  {
    live, shared := seq(n, _ => 0), map[];
    var rest := uniq.Keys;
    ghost var done: set<Seg> := {};
    while rest != {}
      invariant |live| == n && done !! rest && done + rest == uniq.Keys
      invariant BytesFilled(live, done)
      invariant shared == OnlyShared(uniq, done)
      decreases |rest|
    {
      var k :| k in rest;
      KeyInRange(uniq, objects, k, n);
      FillOne(live, done, k);
      ShareOneMore(uniq, done, k);
      live := live[k.ext := (live[k.ext] + k.len) % U32];
      if uniq[k] > 1 {
        shared := shared[k := uniq[k]];
      }
      rest, done := rest - {k}, done + {k};
    }
    AllShared(uniq, objects);
  }

  /** The entries of more than one holder, among the keys in `done`. */
  ghost function OnlyShared(uniq: map<Seg, nat>, done: set<Seg>): map<Seg, nat>
    requires done <= uniq.Keys
  {
    map k | k in done && uniq[k] > 1 :: uniq[k]
  }

  lemma ShareOneMore(uniq: map<Seg, nat>, done: set<Seg>, k: Seg)
    requires done <= uniq.Keys && k in uniq
    ensures OnlyShared(uniq, done + {k}) ==
      if uniq[k] > 1 then OnlyShared(uniq, done)[k := uniq[k]] else OnlyShared(uniq, done)
  {
  }

  lemma AllShared(uniq: map<Seg, nat>, objs: seq<Object>)
    requires Counted(uniq, objs)
    ensures uniq.Keys == Keys(objs)
    ensures OnlyShared(uniq, uniq.Keys) == map k | k in Keys(objs) && Holders(objs, k) > 1 :: Holders(objs, k)
  {
    CountedKeys(uniq, objs);
  }

  ghost predicate RefsCounted(refs: seq<nat>, objs: seq<Object>) {
    forall e :: 0 <= e < |refs| ==> refs[e] == Touching(objs, e) % U32
  }

  /** A count of every distinct segment of the objects. */
  ghost predicate Counted(uniq: map<Seg, nat>, objs: seq<Object>) {
    Positive(uniq) && forall k :: Entry(uniq, k) == Holders(objs, k)
  }

  method CountKeys(uniq: map<Seg, nat>, segs: seq<Seg>) returns (more: map<Seg, nat>)
    requires Positive(uniq)
    ensures Positive(more)
    ensures forall k :: Entry(more, k) == Entry(uniq, k) + Count(segs, k)
  {
    more := uniq;
    for j := 0 to |segs|
      invariant Positive(more)
      invariant forall k :: Entry(more, k) == Entry(uniq, k) + Count(segs[..j], k)
    {
      var x := segs[j];
      assert segs[..j + 1] == segs[..j] + [x];
      forall k ensures Count(segs[..j + 1], k) == Count(segs[..j], k) + (if x == k then 1 else 0) {
        CountAppend(segs[..j], x, k);
      }
      ghost var was := more;
      more := more[x := (if x in more then more[x] else 0) + 1];
      forall k ensures Entry(more, k) == Entry(uniq, k) + Count(segs[..j + 1], k) {
        assert Entry(was, k) == Entry(uniq, k) + Count(segs[..j], k);
      }
    }
    assert segs[..|segs|] == segs;
  }

  lemma CountedAppend(uniq: map<Seg, nat>, more: map<Seg, nat>, objs: seq<Object>, segs: seq<Seg>)
    requires Counted(uniq, objs) && Positive(more)
    requires forall k :: Entry(more, k) == Entry(uniq, k) + Count(segs, k)
    ensures Counted(more, objs + [segs])
  {
    forall k ensures Entry(more, k) == Holders(objs + [segs], k) {
      HoldersAppend(objs, segs, k);
      assert Entry(uniq, k) == Holders(objs, k);
    }
  }

  lemma CountedKeys(uniq: map<Seg, nat>, objs: seq<Object>)
    requires Counted(uniq, objs)
    ensures uniq.Keys == Keys(objs)
    ensures forall k :: k in uniq ==> uniq[k] == Holders(objs, k)
  {
    forall k ensures k in uniq.Keys <==> k in Keys(objs) {
      HeldIffKey(objs, k);
      assert Entry(uniq, k) == Holders(objs, k);
    }
    forall k | k in uniq ensures uniq[k] == Holders(objs, k) {
      assert Entry(uniq, k) == Holders(objs, k);
    }
  }

  lemma KeyInRange(uniq: map<Seg, nat>, objs: seq<Object>, k: Seg, n: nat)
    requires Counted(uniq, objs) && ObjectsInRange(n, objs) && k in uniq
    ensures k.ext < n
  {
    CountedKeys(uniq, objs);
    var o :| o in objs && k in o;
    var i :| 0 <= i < |objs| && objs[i] == o;
    var j :| 0 <= j < |o| && o[j] == k;
    assert objs[i][j].ext < n;
  }

  ghost predicate BytesFilled(live: seq<nat>, done: set<Seg>) {
    forall e :: 0 <= e < |live| ==> live[e] == Bytes(done, e) % U32
  }

  lemma FillOne(live: seq<nat>, done: set<Seg>, k: Seg)
    requires k !in done && k.ext < |live| && BytesFilled(live, done)
    ensures BytesFilled(live[k.ext := (live[k.ext] + k.len) % U32], done + {k})
  {
    forall e | 0 <= e < |live|
      ensures live[k.ext := (live[k.ext] + k.len) % U32][e] == Bytes(done + {k}, e) % U32
    {
      BytesInsert(done, k, e);
      ModShift(Bytes(done, e), k.len);
    }
  }

  ghost predicate ObjectsInRange(n: nat, objects: seq<Object>) {
    forall i, j :: 0 <= i < |objects| && 0 <= j < |objects[i]| ==> objects[i][j].ext < n
  }

  lemma BelowParts(a: seq<nat>, b: seq<nat>, n: nat)
    requires Below(a + b, n)
    ensures Below(a, n) && Below(b, n)
  {
    forall i | 0 <= i < |a| ensures a[i] < n { assert (a + b)[i] == a[i]; }
    forall i | 0 <= i < |b| ensures b[i] < n { assert (a + b)[|a| + i] == b[i]; }
  }

  lemma {:induction false} UnallocateParts(s: Ledger, a: seq<nat>, b: seq<nat>)
    requires WellFormed(s) && Below(a, |s.bits|) && Below(b, |s.bits|) && Below(a + b, |s.bits|)
    ensures Unallocate(s, a + b) == Unallocate(Unallocate(s, a), b)
    decreases |a|
  {
    if a == [] {
      assert a + b == b;
    } else {
      assert (a + b)[1..] == a[1..] + b;
      BelowParts(a[1..], b, |s.bits|);
      UnallocateParts(s.(bits := s.bits[a[0] := false], phase := s.phase[a[0] := Free],
                         totalAlloc := s.totalAlloc - 1), a[1..], b);
    }
  }
}
