/** The allocator's accounting state as a value, and what each of its operations does to it.

    `Ledger` holds the fields of `Allocator`; `Staged` is the undo log that a caller carries
    through one transaction. The imperative methods in Allocator.dfy are proved against these
    functions, and the run-level theorems are proved about them. */
module Ledgers {

  /** The counters of live bytes and references are 32-bit and wrap. */
  const U32: nat := 0x1_0000_0000

  /** The key of a stored segment: extent, offset in its data area, and length. */
  datatype Seg = Seg(ext: nat, off: nat, len: nat)

  datatype Phase = Free | Open | Sealed

  datatype Ledger = Ledger(
    bits: seq<bool>,
    refcounts: seq<nat>,
    generations: seq<nat>,
    live: seq<nat>,
    phase: seq<Phase>,
    shared: map<Seg, nat>,
    pins: seq<nat>,
    isolated: set<nat>,
    totalAlloc: int,
    totalFree: int)

  /** The staged changes of one transaction. The first three lists go into its log record. */
  datatype Staged = Staged(
    alloc: seq<(nat, nat)>,
    refInc: seq<nat>,
    refDec: seq<nat>,
    cleared: seq<nat>,
    liveInc: seq<(nat, nat)>,
    inflight: seq<(nat, nat)>,
    liveDec: seq<(nat, nat)>,
    sharedInc: seq<Seg>,
    sharedDec: seq<Seg>,
    refcountInc: seq<nat>,
    refcountDec: seq<nat>)

  const EMPTY_DRAFT := Staged([], [], [], [], [], [], [], [], [], [], [])

  /** A transaction in progress: the shared ledger and the caller's draft. */
  datatype Txn = Txn(led: Ledger, draft: Staged)

  ghost predicate WellFormed(s: Ledger) {
    && |s.refcounts| == |s.bits|
    && |s.generations| == |s.bits|
    && |s.live| == |s.bits|
    && |s.phase| == |s.bits|
    && |s.pins| == |s.bits|
    && (forall e :: 0 <= e < |s.live| ==> s.live[e] < U32)
    && (forall e :: 0 <= e < |s.refcounts| ==> s.refcounts[e] < U32)
    && (forall k :: k in s.shared ==> s.shared[k] >= 1)
  }

  predicate InRange(s: Ledger, segs: seq<Seg>) {
    forall i :: 0 <= i < |segs| ==> segs[i].ext < |s.bits|
  }

  predicate Below(ids: seq<nat>, n: nat) {
    forall i :: 0 <= i < |ids| ==> ids[i] < n
  }

  predicate KeysBelow(keys: seq<(nat, nat)>, n: nat) {
    forall i :: 0 <= i < |keys| ==> keys[i].0 < n
  }

  // ---------- range lists ----------

  /** The ids `start, .., start + count - 1`. */
  function Span(start: nat, count: nat): (ids: seq<nat>)
    ensures |ids| == count
    ensures forall i :: 0 <= i < count ==> ids[i] == start + i
  {
    seq(count, i requires 0 <= i < count => start + i)
  }

  function Expand(ranges: seq<(nat, nat)>): seq<nat> {
    if ranges == [] then [] else Span(ranges[0].0, ranges[0].1) + Expand(ranges[1..])
  }

  /** The extents that a draft has allocated. */
  function Ids(d: Staged): seq<nat> {
    Expand(d.alloc)
  }

  // ---------- allocate ----------

  /** Marks `ids` as allocated: bit set, reference count zero, generation bumped. */
  function TakeAll(s: Ledger, ids: seq<nat>): (r: Ledger)
    requires WellFormed(s) && Below(ids, |s.bits|)
    ensures WellFormed(r) && |r.bits| == |s.bits|
    decreases |ids|
  {
    if ids == [] then s else
      var e := ids[0];
      TakeAll(s.(bits := s.bits[e := true],
                 refcounts := s.refcounts[e := 0],
                 generations := s.generations[e := s.generations[e] + 1],
                 totalAlloc := s.totalAlloc + 1), ids[1..])
  }

  /** Undoes a partial allocation after the bitmap ran out. */
  function GiveBackAll(s: Ledger, ids: seq<nat>): (r: Ledger)
    requires WellFormed(s) && Below(ids, |s.bits|)
    ensures WellFormed(r) && |r.bits| == |s.bits|
    decreases |ids|
  {
    if ids == [] then s else
      var e := ids[0];
      GiveBackAll(s.(bits := s.bits[e := false],
                     refcounts := s.refcounts[e := 0],
                     live := s.live[e := 0],
                     phase := s.phase[e := Free],
                     totalAlloc := s.totalAlloc - 1), ids[1..])
  }

  /** Pinned ids that the scan ran into: their bits stay set and they are isolated. */
  function Isolate(s: Ledger, ids: set<nat>): (r: Ledger)
    requires WellFormed(s)
    ensures WellFormed(r) && |r.bits| == |s.bits|
  {
    s.(bits := seq(|s.bits|, e requires 0 <= e < |s.bits| => s.bits[e] || e in ids),
       isolated := s.isolated + ids)
  }

  ghost predicate Distinct<T>(ids: seq<T>) {
    forall i, j :: 0 <= i < j < |ids| ==> ids[i] != ids[j]
  }

  /** What the bitmap may hand out: distinct clear unpinned `ids`; `skipped` were clear but pinned. */
  ghost predicate MayTake(s: Ledger, ids: seq<nat>, skipped: set<nat>) {
    && |s.pins| == |s.bits|
    && Distinct(ids)
    && Below(ids, |s.bits|)
    && (forall i :: 0 <= i < |ids| ==> !s.bits[ids[i]] && s.pins[ids[i]] == 0)
    && (forall e :: e in skipped ==> e < |s.bits| && !s.bits[e] && s.pins[e] > 0)
  }

  /** A successful allocation of `ids`, recorded in the draft as `ranges`. */
  function Allocate(t: Txn, ids: seq<nat>, skipped: set<nat>, ranges: seq<(nat, nat)>): (r: Txn)
    requires WellFormed(t.led) && Below(ids, |t.led.bits|)
  {
    Txn(TakeAll(Isolate(t.led, skipped), ids), t.draft.(alloc := t.draft.alloc + ranges))
  }

  /** An allocation that found only `ids` and then gave up. */
  function AllocateNoSpace(t: Txn, ids: seq<nat>, skipped: set<nat>): (r: Txn)
    requires WellFormed(t.led) && Below(ids, |t.led.bits|)
  {
    t.(led := GiveBackAll(TakeAll(Isolate(t.led, skipped), ids), ids))
  }

  // ---------- add ----------

  function GainLive(t: Txn, key: (nat, nat)): (r: Txn)
    requires WellFormed(t.led) && key.0 < |t.led.bits|
    ensures WellFormed(r.led) && |r.led.bits| == |t.led.bits|
  {
    Txn(t.led.(live := t.led.live[key.0 := (t.led.live[key.0] + key.1) % U32]),
        t.draft.(liveInc := t.draft.liveInc + [key]))
  }

  /** A segment that was sealed while its object is still being written. */
  function NoteInflight(t: Txn, seg: Seg): (r: Txn)
    requires WellFormed(t.led) && seg.ext < |t.led.bits|
    ensures WellFormed(r.led) && |r.led.bits| == |t.led.bits|
  {
    var g := GainLive(t, (seg.ext, seg.len));
    g.(draft := g.draft.(inflight := g.draft.inflight + [(seg.ext, seg.len)]))
  }

  /** Counts the segments' bytes, except those that `pre` says were already counted. */
  function AddSegs(t: Txn, pre: multiset<(nat, nat)>, segs: seq<Seg>): (r: Txn)
    requires WellFormed(t.led) && InRange(t.led, segs)
    ensures WellFormed(r.led) && |r.led.bits| == |t.led.bits|
    decreases |segs|
  {
    if segs == [] then t else
      var key := (segs[0].ext, segs[0].len);
      if key in pre then AddSegs(t, pre - multiset{key}, segs[1..])
      else AddSegs(GainLive(t, key), pre, segs[1..])
  }

  /** The extents of `segs`, each once, in order of first appearance after `acc`. */
  function Seen(segs: seq<Seg>, acc: seq<nat>): (r: seq<nat>)
    decreases |segs|
  {
    if segs == [] then acc
    else Seen(segs[1..], if segs[0].ext in acc then acc else acc + [segs[0].ext])
  }

  function RefUp(t: Txn, ids: seq<nat>): (r: Txn)
    requires WellFormed(t.led) && Below(ids, |t.led.bits|)
    ensures WellFormed(r.led) && |r.led.bits| == |t.led.bits|
    decreases |ids|
  {
    if ids == [] then t else
      var e := ids[0];
      RefUp(Txn(t.led.(refcounts := t.led.refcounts[e := (t.led.refcounts[e] + 1) % U32]),
                t.draft.(refcountInc := t.draft.refcountInc + [e])), ids[1..])
  }

  lemma SeenInRange(s: Ledger, segs: seq<Seg>, acc: seq<nat>)
    requires InRange(s, segs)
    requires Below(acc, |s.bits|)
    ensures Below(Seen(segs, acc), |s.bits|)
    decreases |segs|
  {
    if segs != [] {
      SeenInRange(s, segs[1..], if segs[0].ext in acc then acc else acc + [segs[0].ext]);
    }
  }

  function AddObject(t: Txn, segs: seq<Seg>): (r: Txn)
    requires WellFormed(t.led) && InRange(t.led, segs)
    ensures WellFormed(r.led) && |r.led.bits| == |t.led.bits|
  {
    SeenInRange(t.led, segs, []);
    RefUp(AddSegs(t, multiset(t.draft.inflight), segs), Seen(segs, []))
  }

  // ---------- share ----------

  function ShareSegs(t: Txn, segs: seq<Seg>): (r: Txn)
    requires WellFormed(t.led)
    ensures WellFormed(r.led) && |r.led.bits| == |t.led.bits|
    decreases |segs|
  {
    if segs == [] then t else
      var k := segs[0];
      var n := if k in t.led.shared then t.led.shared[k] else 1;
      ShareSegs(Txn(t.led.(shared := t.led.shared[k := n + 1]),
                    t.draft.(sharedInc := t.draft.sharedInc + [k])), segs[1..])
  }

  function ShareObject(t: Txn, segs: seq<Seg>): (r: Txn)
    requires WellFormed(t.led) && InRange(t.led, segs)
    ensures WellFormed(r.led) && |r.led.bits| == |t.led.bits|
  {
    SeenInRange(t.led, segs, []);
    RefUp(ShareSegs(t, segs), Seen(segs, []))
  }

  // ---------- release ----------

  /** Takes `len` bytes off an extent; does nothing when fewer are recorded. */
  function DecLive(t: Txn, e: nat, len: nat): (r: Txn)
    requires WellFormed(t.led) && e < |t.led.bits|
    ensures WellFormed(r.led) && |r.led.bits| == |t.led.bits|
  {
    var prev := t.led.live[e];
    if prev < len then t
    else if prev > len then
      Txn(t.led.(live := t.led.live[e := prev - len]),
          t.draft.(liveDec := t.draft.liveDec + [(e, len)]))
    else
      Txn(t.led.(live := t.led.live[e := 0]),
          t.draft.(cleared := t.draft.cleared + [e],
                   refDec := t.draft.refDec + [e],
                   liveDec := t.draft.liveDec + [(e, len)]))
  }

  function ReleaseSeg(t: Txn, k: Seg): (r: Txn)
    requires WellFormed(t.led) && k.ext < |t.led.bits|
    ensures WellFormed(r.led) && |r.led.bits| == |t.led.bits|
  {
    if k in t.led.shared then
      if t.led.shared[k] > 1 then
        Txn(t.led.(shared := t.led.shared[k := t.led.shared[k] - 1]),
            t.draft.(sharedDec := t.draft.sharedDec + [k]))
      else
        DecLive(Txn(t.led.(shared := t.led.shared - {k}),
                    t.draft.(sharedDec := t.draft.sharedDec + [k])), k.ext, k.len)
    else
      DecLive(t, k.ext, k.len)
  }

  function ReleaseSegs(t: Txn, segs: seq<Seg>): (r: Txn)
    requires WellFormed(t.led) && InRange(t.led, segs)
    ensures WellFormed(r.led) && |r.led.bits| == |t.led.bits|
    decreases |segs|
  {
    if segs == [] then t else ReleaseSegs(ReleaseSeg(t, segs[0]), segs[1..])
  }

  function RefDown(t: Txn, ids: seq<nat>): (r: Txn)
    requires WellFormed(t.led) && Below(ids, |t.led.bits|)
    ensures WellFormed(r.led) && |r.led.bits| == |t.led.bits|
    decreases |ids|
  {
    if ids == [] then t else
      var e := ids[0];
      RefDown(if t.led.refcounts[e] == 0 then t
              else Txn(t.led.(refcounts := t.led.refcounts[e := t.led.refcounts[e] - 1]),
                       t.draft.(refcountDec := t.draft.refcountDec + [e])), ids[1..])
  }

  function ReleaseObject(t: Txn, segs: seq<Seg>): (r: Txn)
    requires WellFormed(t.led) && InRange(t.led, segs)
    ensures WellFormed(r.led) && |r.led.bits| == |t.led.bits|
  {
    SeenInRange(t.led, segs, []);
    RefDown(ReleaseSegs(t, segs), Seen(segs, []))
  }

  // ---------- commit ----------

  /** The final decision about one emptied extent at commit time. */
  function SettleOne(s: Ledger, e: nat): (r: Ledger)
    requires WellFormed(s) && e < |s.bits|
    ensures WellFormed(r) && |r.bits| == |s.bits|
  {
    if s.live[e] > 0 then s
    else if s.pins[e] > 0 then s.(isolated := s.isolated + {e})
    else s.(bits := s.bits[e := false],
            totalFree := if s.bits[e] then s.totalFree + 1 else s.totalFree,
            phase := s.phase[e := Free])
  }

  function Settle(s: Ledger, cleared: seq<nat>): (r: Ledger)
    requires WellFormed(s) && Below(cleared, |s.bits|)
    ensures WellFormed(r) && |r.bits| == |s.bits|
    decreases |cleared|
  {
    if cleared == [] then s else Settle(SettleOne(s, cleared[0]), cleared[1..])
  }

  /** What a committed transaction writes to the log. */
  datatype Record = Record(alloc: seq<(nat, nat)>, refInc: seq<nat>, refDec: seq<nat>)

  function RecordOf(d: Staged): Record {
    Record(d.alloc, d.refInc, d.refDec)
  }

  // ---------- rollback ----------

  function Unclear(s: Ledger, cleared: seq<nat>): (r: Ledger)
    requires WellFormed(s) && Below(cleared, |s.bits|)
    ensures WellFormed(r) && |r.bits| == |s.bits|
    decreases |cleared|
  {
    if cleared == [] then s else
      var e := cleared[0];
      Unclear(if s.bits[e] then s else s.(bits := s.bits[e := true], totalFree := s.totalFree - 1),
              cleared[1..])
  }

  function Unallocate(s: Ledger, ids: seq<nat>): (r: Ledger)
    requires WellFormed(s) && Below(ids, |s.bits|)
    ensures WellFormed(r) && |r.bits| == |s.bits|
    decreases |ids|
  {
    if ids == [] then s else
      var e := ids[0];
      Unallocate(s.(bits := s.bits[e := false], phase := s.phase[e := Free],
                    totalAlloc := s.totalAlloc - 1), ids[1..])
  }

  function Shift(x: nat, amount: nat, up: bool): nat {
    if up then (x + amount) % U32 else (x - amount) % U32
  }

  /** Adds (`up`) or subtracts every listed length, wrapping at 32 bits. */
  function ShiftLive(live: seq<nat>, deltas: seq<(nat, nat)>, up: bool): (r: seq<nat>)
    requires KeysBelow(deltas, |live|)
    requires forall e :: 0 <= e < |live| ==> live[e] < U32
    ensures |r| == |live| && forall e :: 0 <= e < |r| ==> r[e] < U32
    decreases |deltas|
  {
    if deltas == [] then live else
      var (e, len) := deltas[0];
      ShiftLive(live[e := Shift(live[e], len, up)], deltas[1..], up)
  }

  function ShiftRefs(refs: seq<nat>, ids: seq<nat>, up: bool): (r: seq<nat>)
    requires Below(ids, |refs|)
    requires forall e :: 0 <= e < |refs| ==> refs[e] < U32
    ensures |r| == |refs| && forall e :: 0 <= e < |r| ==> r[e] < U32
    decreases |ids|
  {
    if ids == [] then refs else
      var e := ids[0];
      ShiftRefs(refs[e := Shift(refs[e], 1, up)], ids[1..], up)
  }

  ghost predicate Positive(m: map<Seg, nat>) {
    forall k :: k in m ==> m[k] >= 1
  }

  function UnshareOne(m: map<Seg, nat>, k: Seg): (r: map<Seg, nat>)
    requires Positive(m)
    ensures Positive(r)
  {
    if k !in m then m else if m[k] > 2 then m[k := m[k] - 1] else m - {k}
  }

  function Unshare(m: map<Seg, nat>, keys: seq<Seg>): (r: map<Seg, nat>)
    requires Positive(m)
    ensures Positive(r)
    decreases |keys|
  {
    if keys == [] then m else Unshare(UnshareOne(m, keys[0]), keys[1..])
  }

  function ReshareOne(m: map<Seg, nat>, k: Seg): (r: map<Seg, nat>)
    requires Positive(m)
    ensures Positive(r)
  {
    if k in m then m[k := m[k] + 1] else m[k := 1]
  }

  function Reshare(m: map<Seg, nat>, keys: seq<Seg>): (r: map<Seg, nat>)
    requires Positive(m)
    ensures Positive(r)
    decreases |keys|
  {
    if keys == [] then m else Reshare(ReshareOne(m, keys[0]), keys[1..])
  }

  /** Every extent that a draft names exists. */
  ghost predicate DraftInRange(s: Ledger, d: Staged) {
    && Below(d.cleared, |s.bits|)
    && Below(Ids(d), |s.bits|)
    && KeysBelow(d.liveDec, |s.bits|)
    && KeysBelow(d.liveInc, |s.bits|)
    && Below(d.refcountDec, |s.bits|)
    && Below(d.refcountInc, |s.bits|)
  }

  /** The undo of a failed transaction, in the order in which the allocator performs it. */
  function Rollback(s: Ledger, d: Staged): (r: Ledger)
    requires WellFormed(s) && DraftInRange(s, d)
    ensures WellFormed(r) && |r.bits| == |s.bits|
  {
    var u := Unallocate(Unclear(s, d.cleared), Ids(d));
    u.(live := ShiftLive(ShiftLive(u.live, d.liveDec, true), d.liveInc, false),
       shared := Reshare(Unshare(u.shared, d.sharedInc), d.sharedDec),
       refcounts := ShiftRefs(ShiftRefs(u.refcounts, d.refcountDec, true), d.refcountInc, false))
  }
}
