/** Space accounting over whole runs.

    A run is any sequence of transactions that put, copy and delete objects and then commit, of
    transactions that fail and are rolled back, of reader pins and unpins, and of leak repairs.
    After each of them the ledger agrees with the live objects. */
module Runs {
  import opened Ledgers
  import opened Rollbacks
  import opened RollbackLimits
  import opened Holdings

  // ---------- the invariant ----------

  ghost predicate ObjectsOk(n: nat, objs: seq<Object>) {
    forall i :: 0 <= i < |objs| ==> ObjectOk(n, objs[i])
  }

  /** Distinct, non-empty segments on existing extents. */
  ghost predicate ObjectOk(n: nat, obj: Object) {
    && Distinct(obj)
    && forall j :: 0 <= j < |obj| ==> obj[j].len > 0 && obj[j].ext < n
  }

  /** An extent's live bytes are those of its distinct held segments, plus those of the segments
      that a running write has noted but not yet turned into an object. */
  ghost predicate LiveAccounts(s: Ledger, objs: seq<Object>, noted: seq<(nat, nat)>, e: nat)
    requires WellFormed(s) && e < |s.bits|
  {
    && s.live[e] == Bytes(Keys(objs), e) + SumFor(noted, e)
    && (s.live[e] > 0 ==> s.bits[e])
  }

  ghost predicate RefAccounts(s: Ledger, objs: seq<Object>, e: nat)
    requires WellFormed(s) && e < |s.bits|
  {
    s.refcounts[e] == Touching(objs, e)
  }

  /** A share entry is the holder total; without an entry there is at most one holder. */
  ghost predicate KeyAccounts(s: Ledger, objs: seq<Object>, k: Seg) {
    if k in s.shared then s.shared[k] == Holders(objs, k) else Holders(objs, k) <= 1
  }

  ghost predicate Accounts(s: Ledger, objs: seq<Object>, noted: seq<(nat, nat)>) {
    && WellFormed(s)
    && ObjectsOk(|s.bits|, objs)
    && (forall e :: 0 <= e < |s.bits| ==> LiveAccounts(s, objs, noted, e))
    && (forall e :: 0 <= e < |s.bits| ==> RefAccounts(s, objs, e))
    && (forall k :: KeyAccounts(s, objs, k))
  }

  lemma KeyOk(n: nat, objs: seq<Object>, k: Seg)
    requires ObjectsOk(n, objs) && k in Keys(objs)
    ensures k.len > 0 && k.ext < n
  {
    var o :| o in objs && k in o;
    assert exists i :: 0 <= i < |objs| && objs[i] == o;
  }

  /** Bytes and references sit only on allocated extents, so rollback applies. */
  lemma AccountsAreSound(s: Ledger, objs: seq<Object>, noted: seq<(nat, nat)>)
    requires Accounts(s, objs, noted)
    ensures Sound(s)
    ensures forall e :: 0 <= e < |s.bits| && s.live[e] == 0 ==> s.refcounts[e] == 0
  {
    forall e | 0 <= e < |s.bits| && s.live[e] == 0 ensures s.refcounts[e] == 0 {
      assert LiveAccounts(s, objs, noted, e) && RefAccounts(s, objs, e);
      forall k | k in Keys(objs) ensures k.len > 0 { KeyOk(|s.bits|, objs, k); }
      NoBytesNoKey(Keys(objs), e);
      TouchedHasKey(objs, e);
    }
    forall e | 0 <= e < |s.bits| && !s.bits[e] ensures s.live[e] == 0 && s.refcounts[e] == 0 {
      assert LiveAccounts(s, objs, noted, e);
    }
  }

  // ---------- one transaction ----------

  datatype Act =
    | ActAllocate(ids: seq<nat>, skipped: set<nat>, ranges: seq<(nat, nat)>)
    | ActNoSpace(ids: seq<nat>, skipped: set<nat>)
    | ActNote(seg: Seg)
    | ActPut(segs: seq<Seg>)
    | ActCopy(segs: seq<Seg>)
    | ActDelete(i: nat)

  /** A transaction in progress, the live objects it would leave, and whether it has put one. */
  datatype World = World(txn: Txn, objs: seq<Object>, put: bool)

  /** The notes that no put has absorbed yet. */
  function Noted(w: World): seq<(nat, nat)> {
    if w.put then [] else w.txn.draft.inflight
  }

  function Amounts(segs: seq<Seg>): seq<(nat, nat)> {
    seq(|segs|, i requires 0 <= i < |segs| => (segs[i].ext, segs[i].len))
  }

  ghost predicate Fits(n: nat, ks: set<Seg>, noted: seq<(nat, nat)>) {
    forall e :: 0 <= e < n ==> Bytes(ks, e) + SumFor(noted, e) < U32
  }

  /** The reference counts of the extents that an object touches have room for one more. */
  ghost predicate RefsFit(objs: seq<Object>, segs: seq<Seg>) {
    forall e :: Touches(segs, e) ==> Touching(objs, e) + 1 < U32
  }

  /** A put writes fresh segments and takes up every note of its transaction; `others` are the notes of
      other transactions. */
  ghost predicate PutLegal(w: World, segs: seq<Seg>, others: seq<(nat, nat)>) {
    var s := w.txn.led;
    && ObjectOk(|s.bits|, segs) && InRange(s, segs)
    && (forall i :: 0 <= i < |segs| ==> segs[i] !in Keys(w.objs))
    && (w.txn.draft.inflight == [] || !w.put)
    && multiset(w.txn.draft.inflight) <= multiset(Amounts(segs))
    && Fits(|s.bits|, Keys(w.objs + [segs]), others)
  }

  /** What the engine owes the allocator: data goes into allocated extents, a copy names held
      segments, and counters have room for the result. */
  ghost predicate ActLegal(w: World, a: Act) {
    var s := w.txn.led;
    match a
    case ActAllocate(ids, skipped, ranges) =>
      MayTake(s, ids, skipped) && multiset(Expand(ranges)) == multiset(ids)
    case ActNoSpace(ids, skipped) => MayTake(s, ids, skipped)
    case ActNote(seg) =>
      && !w.put && seg.ext < |s.bits| && s.bits[seg.ext]
      && Fits(|s.bits|, Keys(w.objs), Noted(w) + [(seg.ext, seg.len)])
    case ActPut(segs) => PutLegal(w, segs, []) && RefsFit(w.objs, segs) && InAllocated(s, segs)
    case ActCopy(segs) =>
      && ObjectOk(|s.bits|, segs)
      && (forall i :: 0 <= i < |segs| ==> segs[i] in Keys(w.objs))
      && RefsFit(w.objs, segs)
    case ActDelete(i) => i < |w.objs|
  }

  lemma InRangeOk(s: Ledger, obj: Object)
    requires ObjectOk(|s.bits|, obj)
    ensures InRange(s, obj)
  {
  }

  ghost function Perform(w: World, a: Act): (r: World)
    requires WellFormed(w.txn.led) && ObjectsOk(|w.txn.led.bits|, w.objs) && ActLegal(w, a)
    ensures WellFormed(r.txn.led) && |r.txn.led.bits| == |w.txn.led.bits|
    ensures ObjectsOk(|r.txn.led.bits|, r.objs)
  {
    match a
    case ActAllocate(ids, skipped, ranges) => w.(txn := Allocate(w.txn, ids, skipped, ranges))
    case ActNoSpace(ids, skipped) => w.(txn := AllocateNoSpace(w.txn, ids, skipped))
    case ActNote(seg) => w.(txn := NoteInflight(w.txn, seg))
    case ActPut(segs) => World(AddObject(w.txn, segs), w.objs + [segs], true)
    case ActCopy(segs) =>
      InRangeOk(w.txn.led, segs);
      World(ShareObject(w.txn, segs), w.objs + [segs], w.put)
    case ActDelete(i) =>
      InRangeOk(w.txn.led, w.objs[i]);
      World(ReleaseObject(w.txn, w.objs[i]), w.objs[i := []], w.put)
  }

  // ---------- deleting an object ----------

  /** The part of the invariant that releasing segments one by one maintains. */
  ghost predicate SpaceAccounts(s: Ledger, objs: seq<Object>, noted: seq<(nat, nat)>) {
    && WellFormed(s)
    && ObjectsOk(|s.bits|, objs)
    && (forall e :: 0 <= e < |s.bits| ==> LiveAccounts(s, objs, noted, e))
    && (forall k :: KeyAccounts(s, objs, k))
  }

  lemma DropFirst(objs: seq<Object>, i: nat, k: Seg)
    requires i < |objs| && objs[i] != []
    ensures Holders(objs[i := objs[i][1..]], k) == Holders(objs, k) - (if k == objs[i][0] then 1 else 0)
    ensures Holders(objs, objs[i][0]) >= 1
  {
    HoldersUpdate(objs, i, objs[i][1..], k);
    HoldersUpdate(objs, i, objs[i][1..], objs[i][0]);
  }

  lemma KeysAfterDrop(objs: seq<Object>, i: nat)
    requires i < |objs| && objs[i] != []
    ensures var k := objs[i][0];
      Keys(objs[i := objs[i][1..]]) == if Holders(objs, k) > 1 then Keys(objs) else Keys(objs) - {k}
  {
    var k := objs[i][0];
    var after := objs[i := objs[i][1..]];
    forall x ensures x in Keys(after) <==> x in Keys(objs) && (x != k || Holders(objs, k) > 1) {
      HeldIffKey(objs, x);
      HeldIffKey(after, x);
      DropFirst(objs, i, x);
    }
  }

  lemma ReleaseSegLive(t: Txn, objs: seq<Object>, i: nat, noted: seq<(nat, nat)>, e: nat)
    requires SpaceAccounts(t.led, objs, noted) && i < |objs| && objs[i] != [] && e < |t.led.bits|
    requires objs[i][0].ext < |t.led.bits|
    ensures LiveAccounts(ReleaseSeg(t, objs[i][0]).led, objs[i := objs[i][1..]], noted, e)
  {
    var k := objs[i][0];
    assert LiveAccounts(t.led, objs, noted, k.ext) && LiveAccounts(t.led, objs, noted, e);
    assert KeyAccounts(t.led, objs, k);
    KeysAfterDrop(objs, i);
    DropFirst(objs, i, k);
    HeldIffKey(objs, k);
    BytesRemove(Keys(objs), k, e);
    BytesRemove(Keys(objs), k, k.ext);
  }

  lemma ReleaseSegKeyed(t: Txn, objs: seq<Object>, i: nat, k: Seg)
    requires WellFormed(t.led) && i < |objs| && objs[i] != [] && objs[i][0].ext < |t.led.bits|
    requires KeyAccounts(t.led, objs, k)
    ensures KeyAccounts(ReleaseSeg(t, objs[i][0]).led, objs[i := objs[i][1..]], k)
  {
    DropFirst(objs, i, k);
  }

  lemma {:induction false} ReleaseObjectSpace(t: Txn, objs: seq<Object>, i: nat, noted: seq<(nat, nat)>)
    requires SpaceAccounts(t.led, objs, noted) && i < |objs| && InRange(t.led, objs[i])
    ensures SpaceAccounts(ReleaseSegs(t, objs[i]).led, objs[i := []], noted)
    decreases |objs[i]|
  {
    if objs[i] == [] {
      assert objs[i := []] == objs;
    } else {
      var rest := objs[i][1..];
      var after := objs[i := rest];
      var r := ReleaseSeg(t, objs[i][0]);
      forall e | 0 <= e < |t.led.bits| ensures LiveAccounts(r.led, after, noted, e) {
        ReleaseSegLive(t, objs, i, noted, e);
      }
      forall k ensures KeyAccounts(r.led, after, k) {
        ReleaseSegKeyed(t, objs, i, k);
      }
      assert ObjectOk(|t.led.bits|, objs[i]);
      assert ObjectOk(|t.led.bits|, rest);
      assert after[i := []] == objs[i := []];
      ReleaseObjectSpace(r, after, i, noted);
    }
  }

  lemma {:induction false} RefDownAt(t: Txn, ids: seq<nat>, e: nat)
    requires WellFormed(t.led) && Below(ids, |t.led.bits|) && Distinct(ids) && e < |t.led.bits|
    ensures RefDown(t, ids).led.refcounts[e] ==
      if e in ids && t.led.refcounts[e] > 0 then t.led.refcounts[e] - 1 else t.led.refcounts[e]
    decreases |ids|
  {
    if ids != [] {
      var x := ids[0];
      RefDownAt(if t.led.refcounts[x] == 0 then t
                else Txn(t.led.(refcounts := t.led.refcounts[x := t.led.refcounts[x] - 1]),
                         t.draft.(refcountDec := t.draft.refcountDec + [x])), ids[1..], e);
    }
  }

  lemma {:induction false} RefUpAt(t: Txn, ids: seq<nat>, e: nat)
    requires WellFormed(t.led) && Below(ids, |t.led.bits|) && Distinct(ids) && e < |t.led.bits|
    ensures RefUp(t, ids).led.refcounts[e] ==
      if e in ids then (t.led.refcounts[e] + 1) % U32 else t.led.refcounts[e]
    decreases |ids|
  {
    if ids != [] {
      RefUpAt(RefUpOne(t, ids[0]), ids[1..], e);
    }
  }

  /** Space accounting does not look at the reference counts. */
  lemma SpaceIgnoresRefs(s: Ledger, r: Ledger, objs: seq<Object>, noted: seq<(nat, nat)>)
    requires SpaceAccounts(s, objs, noted) && WellFormed(r) && r == s.(refcounts := r.refcounts)
    ensures SpaceAccounts(r, objs, noted)
  {
    forall e | 0 <= e < |r.bits| ensures LiveAccounts(r, objs, noted, e) {
      assert LiveAccounts(s, objs, noted, e);
    }
    forall k ensures KeyAccounts(r, objs, k) {
      assert KeyAccounts(s, objs, k);
    }
  }

  lemma SeenTouches(segs: seq<Seg>, e: nat)
    ensures Distinct(Seen(segs, []))
    ensures e in Seen(segs, []) <==> Touches(segs, e)
  {
    SeenFrom(segs, []);
  }

  /** Releasing an object keeps the space accounting, whatever the reference counts say. */
  lemma DeleteSpace(t: Txn, objs: seq<Object>, i: nat, noted: seq<(nat, nat)>)
    requires SpaceAccounts(t.led, objs, noted) && i < |objs| && InRange(t.led, objs[i])
    ensures SpaceAccounts(ReleaseObject(t, objs[i]).led, objs[i := []], noted)
  {
    ReleaseObjectSpace(t, objs, i, noted);
    SeenInRange(t.led, objs[i], []);
    var mid, ids := ReleaseSegs(t, objs[i]), Seen(objs[i], []);
    RefDownFrame(mid, ids);
    SpaceIgnoresRefs(mid.led, RefDown(mid, ids).led, objs[i := []], noted);
  }

  lemma DeleteAccounts(t: Txn, objs: seq<Object>, i: nat, noted: seq<(nat, nat)>)
    requires Accounts(t.led, objs, noted) && i < |objs| && InRange(t.led, objs[i])
    ensures Accounts(ReleaseObject(t, objs[i]).led, objs[i := []], noted)
  {
    var obj := objs[i];
    DeleteSpace(t, objs, i, noted);
    SeenInRange(t.led, obj, []);
    var mid, ids := ReleaseSegs(t, obj), Seen(obj, []);
    ReleaseKeepsRefs(t, obj);
    var r, after := RefDown(mid, ids), objs[i := []];
    forall e | 0 <= e < |r.led.bits| ensures RefAccounts(r.led, after, e) {
      assert RefAccounts(t.led, objs, e);
      SeenTouches(obj, e);
      RefDownAt(mid, ids, e);
      TouchingUpdate(objs, i, [], e);
    }
  }

  lemma {:induction false} ReleaseKeepsRefs(t: Txn, segs: seq<Seg>)
    requires WellFormed(t.led) && InRange(t.led, segs)
    ensures ReleaseSegs(t, segs).led.refcounts == t.led.refcounts
    decreases |segs|
  {
    if segs != [] {
      ReleaseKeepsRefs(ReleaseSeg(t, segs[0]), segs[1..]);
    }
  }

  // ---------- copying an object ----------

  lemma {:induction false} ShareSegsAt(t: Txn, segs: seq<Seg>, k: Seg)
    requires WellFormed(t.led)
    ensures Entry(ShareSegs(t, segs).led.shared, k) ==
      if Count(segs, k) == 0 then Entry(t.led.shared, k) else Holding(Entry(t.led.shared, k)) + Count(segs, k)
    decreases |segs|
  {
    if segs != [] {
      var x := segs[0];
      var n := if x in t.led.shared then t.led.shared[x] else 1;
      ShareSegsAt(Txn(t.led.(shared := t.led.shared[x := n + 1]),
                      t.draft.(sharedInc := t.draft.sharedInc + [x])), segs[1..], k);
    }
  }

  lemma CopyKeepsKeys(objs: seq<Object>, segs: seq<Seg>)
    requires forall i :: 0 <= i < |segs| ==> segs[i] in Keys(objs)
    ensures Keys(objs + [segs]) == Keys(objs)
  {
    forall x ensures x in Keys(objs + [segs]) <==> x in Keys(objs) {
      assert x in Keys(objs + [segs]) <==> x in Keys(objs) || x in segs;
    }
  }

  lemma AppendOk(n: nat, objs: seq<Object>, segs: seq<Seg>)
    requires ObjectsOk(n, objs) && ObjectOk(n, segs)
    ensures ObjectsOk(n, objs + [segs])
  {
  }

  lemma CopyKeyed(t: Txn, objs: seq<Object>, segs: seq<Seg>, k: Seg)
    requires WellFormed(t.led) && Distinct(segs) && KeyAccounts(t.led, objs, k)
    requires forall i :: 0 <= i < |segs| ==> segs[i] in Keys(objs)
    ensures KeyAccounts(ShareSegs(t, segs).led, objs + [segs], k)
  {
    ShareSegsAt(t, segs, k);
    DistinctCount(segs, k);
    HoldersAppend(objs, segs, k);
    HeldIffKey(objs, k);
  }

  lemma CopySpace(t: Txn, objs: seq<Object>, segs: seq<Seg>, noted: seq<(nat, nat)>)
    requires SpaceAccounts(t.led, objs, noted) && ObjectOk(|t.led.bits|, segs) && InRange(t.led, segs)
    requires forall i :: 0 <= i < |segs| ==> segs[i] in Keys(objs)
    ensures SpaceAccounts(ShareSegs(t, segs).led, objs + [segs], noted)
    ensures SpaceAccounts(ShareObject(t, segs).led, objs + [segs], noted)
  {
    var mid, after := ShareSegs(t, segs), objs + [segs];
    SeenInRange(t.led, segs, []);
    ShareSegsFrame(t, segs);
    AppendOk(|t.led.bits|, objs, segs);
    CopyKeepsKeys(objs, segs);
    forall e | 0 <= e < |t.led.bits| ensures LiveAccounts(mid.led, after, noted, e) {
      assert LiveAccounts(t.led, objs, noted, e);
    }
    forall k ensures KeyAccounts(mid.led, after, k) {
      assert KeyAccounts(t.led, objs, k);
      CopyKeyed(t, objs, segs, k);
    }
    RefUpFrame(mid, Seen(segs, []));
    SpaceIgnoresRefs(mid.led, RefUp(mid, Seen(segs, [])).led, after, noted);
  }

  lemma CopyAccounts(t: Txn, objs: seq<Object>, segs: seq<Seg>, noted: seq<(nat, nat)>)
    requires Accounts(t.led, objs, noted) && ObjectOk(|t.led.bits|, segs) && InRange(t.led, segs)
    requires forall i :: 0 <= i < |segs| ==> segs[i] in Keys(objs)
    requires RefsFit(objs, segs)
    ensures Accounts(ShareObject(t, segs).led, objs + [segs], noted)
  {
    SeenInRange(t.led, segs, []);
    ShareSegsFrame(t, segs);
    CopySpace(t, objs, segs, noted);
    NewReference(t, ShareSegs(t, segs), objs, segs, noted);
  }

  lemma NewReferenceAt(mid: Txn, objs: seq<Object>, segs: seq<Seg>, ids: seq<nat>, e: nat)
    requires WellFormed(mid.led) && Below(ids, |mid.led.bits|) && Distinct(ids) && e < |mid.led.bits|
    requires e in ids <==> Touches(segs, e)
    requires mid.led.refcounts[e] == Touching(objs, e) && (Touches(segs, e) ==> Touching(objs, e) + 1 < U32)
    ensures RefUp(mid, ids).led.refcounts[e] == Touching(objs + [segs], e)
  {
    var was := mid.led.refcounts[e];
    RefUpAt(mid, ids, e);
    TouchingAppend(objs, segs, e);
    if e in ids {
      assert (was + 1) % U32 == was + 1;
    }
  }

  /** A new object raises the reference count of each extent it touches by one. */
  lemma NewReference(t: Txn, mid: Txn, objs: seq<Object>, segs: seq<Seg>, noted: seq<(nat, nat)>)
    requires WellFormed(t.led) && forall e :: 0 <= e < |t.led.bits| ==> RefAccounts(t.led, objs, e)
    requires |mid.led.bits| == |t.led.bits|
    requires SpaceAccounts(mid.led, objs + [segs], noted) && mid.led.refcounts == t.led.refcounts
    requires Below(Seen(segs, []), |mid.led.bits|)
    requires RefsFit(objs, segs)
    ensures Accounts(RefUp(mid, Seen(segs, [])).led, objs + [segs], noted)
  {
    var r, after := RefUp(mid, Seen(segs, [])), objs + [segs];
    RefUpFrame(mid, Seen(segs, []));
    SpaceIgnoresRefs(mid.led, r.led, after, noted);
    forall e | 0 <= e < |r.led.bits| ensures RefAccounts(r.led, after, e) {
      assert RefAccounts(t.led, objs, e);
      SeenTouches(segs, e);
      NewReferenceAt(mid, objs, segs, Seen(segs, []), e);
    }
  }

  // ---------- putting an object ----------

  function KeyWeight(key: (nat, nat), e: nat): nat {
    if key.0 == e then key.1 else 0
  }

  /** The bytes on extent `e` that a multiset of notes stands for. */
  ghost function NoteSum(pre: multiset<(nat, nat)>, e: nat): nat {
    if pre == multiset{} then 0 else
      var key :| key in pre;
      KeyWeight(key, e) + NoteSum(pre - multiset{key}, e)
  }

  lemma {:induction false} NoteSumRemove(pre: multiset<(nat, nat)>, key: (nat, nat), e: nat)
    requires key in pre
    ensures NoteSum(pre, e) == KeyWeight(key, e) + NoteSum(pre - multiset{key}, e)
    decreases |pre|
  {
    var c :| c in pre && NoteSum(pre, e) == KeyWeight(c, e) + NoteSum(pre - multiset{c}, e);
    if c != key {
      NoteSumRemove(pre - multiset{c}, key, e);
      NoteSumRemove(pre - multiset{key}, c, e);
      assert pre - multiset{c} - multiset{key} == pre - multiset{key} - multiset{c};
    }
  }

  lemma {:induction false} NoteSumOfSeq(notes: seq<(nat, nat)>, e: nat)
    ensures NoteSum(multiset(notes), e) == SumFor(notes, e)
  {
    if notes != [] {
      assert notes == [notes[0]] + notes[1..];
      NoteSumRemove(multiset(notes), notes[0], e);
      assert multiset(notes) - multiset{notes[0]} == multiset(notes[1..]);
      NoteSumOfSeq(notes[1..], e);
    }
  }

  lemma AmountsTail(segs: seq<Seg>)
    requires segs != []
    ensures multiset(Amounts(segs)) == multiset{(segs[0].ext, segs[0].len)} + multiset(Amounts(segs[1..]))
  {
    assert Amounts(segs) == [(segs[0].ext, segs[0].len)] + Amounts(segs[1..]);
  }

  /** Adding an object's segments raises an extent by their bytes, less those already noted. */
  lemma {:induction false} AddSegsLive(t: Txn, pre: multiset<(nat, nat)>, segs: seq<Seg>, e: nat)
    requires WellFormed(t.led) && InRange(t.led, segs) && e < |t.led.bits|
    requires pre <= multiset(Amounts(segs))
    requires t.led.live[e] + SegSum(segs, e) - NoteSum(pre, e) < U32
    ensures SegSum(segs, e) >= NoteSum(pre, e)
    ensures AddSegs(t, pre, segs).led.live[e] == t.led.live[e] + SegSum(segs, e) - NoteSum(pre, e)
    decreases |segs|
  {
    if segs == [] {
      assert pre == multiset{};
    } else {
      var key := (segs[0].ext, segs[0].len);
      AmountsTail(segs);
      if key in pre {
        NoteSumRemove(pre, key, e);
        AddSegsLive(t, pre - multiset{key}, segs[1..], e);
      } else {
        NoteCovered(pre, segs[1..], e);
        GainLiveExact(t, key, e);
        AddSegsLive(GainLive(t, key), pre, segs[1..], e);
      }
    }
  }

  lemma GainLiveExact(t: Txn, key: (nat, nat), e: nat)
    requires WellFormed(t.led) && key.0 < |t.led.bits| && e < |t.led.bits|
    requires t.led.live[e] + KeyWeight(key, e) < U32
    ensures GainLive(t, key).led.live[e] == t.led.live[e] + KeyWeight(key, e)
  {
  }

  lemma {:induction false} NoteCovered(pre: multiset<(nat, nat)>, segs: seq<Seg>, e: nat)
    requires pre <= multiset(Amounts(segs))
    ensures NoteSum(pre, e) <= SegSum(segs, e)
    decreases |segs|
  {
    if segs == [] {
      assert pre == multiset{};
    } else {
      var key := (segs[0].ext, segs[0].len);
      AmountsTail(segs);
      if key in pre {
        NoteSumRemove(pre, key, e);
        NoteCovered(pre - multiset{key}, segs[1..], e);
      } else {
        NoteCovered(pre, segs[1..], e);
      }
    }
  }

  lemma PutKeys(objs: seq<Object>, segs: seq<Seg>)
    ensures Keys(objs + [segs]) == Keys(objs) + set k | k in segs
  {
    forall x ensures x in Keys(objs + [segs]) <==> x in Keys(objs) || x in segs {
    }
  }

  lemma {:induction false} SumForConcat(a: seq<(nat, nat)>, b: seq<(nat, nat)>, e: nat)
    ensures SumFor(a + b, e) == SumFor(a, e) + SumFor(b, e)
  {
    if a == [] {
      assert a + b == b;
    } else {
      assert (a + b)[1..] == a[1..] + b;
      SumForConcat(a[1..], b, e);
    }
  }

  lemma PutLive(w: World, segs: seq<Seg>, others: seq<(nat, nat)>, e: nat)
    requires SpaceAccounts(w.txn.led, w.objs, Noted(w) + others) && PutLegal(w, segs, others)
    requires e < |w.txn.led.bits|
    ensures var r := AddSegs(w.txn, multiset(w.txn.draft.inflight), segs);
      && r.led.live[e] == Bytes(Keys(w.objs + [segs]), e) + SumFor(others, e)
      && (InAllocated(w.txn.led, segs) ==> LiveAccounts(r.led, w.objs + [segs], others, e))
  {
    var t, notes := w.txn, w.txn.draft.inflight;
    assert LiveAccounts(t.led, w.objs, Noted(w) + others, e);
    SumForConcat(Noted(w), others, e);
    PutKeys(w.objs, segs);
    BytesAddAll(Keys(w.objs), segs, e);
    NoteSumOfSeq(notes, e);
    assert Bytes(Keys(w.objs + [segs]), e) + SumFor(others, e) < U32;
    AddSegsLive(t, multiset(notes), segs, e);
    AddSegsFrame(t, multiset(notes), segs);
    if SegSum(segs, e) > 0 {
      SegSumTouches(segs, e);
    }
  }

  lemma {:induction false} SegSumTouches(segs: seq<Seg>, e: nat)
    ensures SegSum(segs, e) > 0 ==> Touches(segs, e)
  {
    if segs != [] {
      SegSumTouches(segs[1..], e);
      if SegSum(segs, e) > 0 {
        if segs[0].ext == e {
          assert Touches(segs, e);
        } else {
          var i :| 0 <= i < |segs[1..]| && segs[1..][i].ext == e;
          assert segs[i + 1].ext == e;
        }
      }
    }
  }

  lemma PutKeyed(s: Ledger, objs: seq<Object>, segs: seq<Seg>, k: Seg)
    requires KeyAccounts(s, objs, k) && WellFormed(s) && Distinct(segs)
    requires forall i :: 0 <= i < |segs| ==> segs[i] !in Keys(objs)
    ensures KeyAccounts(s, objs + [segs], k)
  {
    HoldersAppend(objs, segs, k);
    DistinctCount(segs, k);
    HeldIffKey(objs, k);
  }

  lemma PutSpace(w: World, segs: seq<Seg>, others: seq<(nat, nat)>)
    requires SpaceAccounts(w.txn.led, w.objs, Noted(w) + others) && PutLegal(w, segs, others) && InAllocated(w.txn.led, segs)
    ensures SpaceAccounts(AddSegs(w.txn, multiset(w.txn.draft.inflight), segs).led, w.objs + [segs], others)
    ensures SpaceAccounts(AddObject(w.txn, segs).led, w.objs + [segs], others)
  {
    var t, after := w.txn, w.objs + [segs];
    var mid := AddSegs(t, multiset(t.draft.inflight), segs);
    SeenInRange(t.led, segs, []);
    AddSegsFrame(t, multiset(t.draft.inflight), segs);
    AppendOk(|t.led.bits|, w.objs, segs);
    forall e | 0 <= e < |t.led.bits| ensures LiveAccounts(mid.led, after, others, e) {
      PutLive(w, segs, others, e);
    }
    forall k ensures KeyAccounts(mid.led, after, k) {
      assert KeyAccounts(t.led, w.objs, k);
      PutKeyed(t.led, w.objs, segs, k);
    }
    RefUpFrame(mid, Seen(segs, []));
    SpaceIgnoresRefs(mid.led, RefUp(mid, Seen(segs, [])).led, after, others);
  }

  /** A put on an extent that is not allocated leaves live bytes there. */
  lemma PutOnFreeExtent(w: World, segs: seq<Seg>, others: seq<(nat, nat)>, i: nat)
    requires SpaceAccounts(w.txn.led, w.objs, Noted(w) + others) && PutLegal(w, segs, others)
    requires i < |segs| && !w.txn.led.bits[segs[i].ext]
    ensures var r := AddObject(w.txn, segs).led;
      |r.bits| == |w.txn.led.bits| && r.live[segs[i].ext] > 0 && !r.bits[segs[i].ext]
  {
    var t, e := w.txn, segs[i].ext;
    var mid := AddSegs(t, multiset(t.draft.inflight), segs);
    SeenInRange(t.led, segs, []);
    AddSegsFrame(t, multiset(t.draft.inflight), segs);
    RefUpFrame(mid, Seen(segs, []));
    PutLive(w, segs, others, e);
    PutKeys(w.objs, segs);
    BytesRemove(Keys(w.objs + [segs]), segs[i], e);
  }

  /** A put keeps the ledger in step with the objects if and only if all its data lies in allocated
      extents. */
  lemma PutAccounts(w: World, segs: seq<Seg>, others: seq<(nat, nat)>)
    requires Accounts(w.txn.led, w.objs, Noted(w) + others) && PutLegal(w, segs, others) && RefsFit(w.objs, segs)
    ensures Accounts(AddObject(w.txn, segs).led, w.objs + [segs], others) <==> InAllocated(w.txn.led, segs)
  {
    var t := w.txn;
    SeenInRange(t.led, segs, []);
    AddSegsFrame(t, multiset(t.draft.inflight), segs);
    if InAllocated(t.led, segs) {
      PutSpace(w, segs, others);
      NewReference(t, AddSegs(t, multiset(t.draft.inflight), segs), w.objs, segs, others);
    } else {
      var i :| 0 <= i < |segs| && !t.led.bits[segs[i].ext];
      PutOnFreeExtent(w, segs, others, i);
      assert !LiveAccounts(AddObject(t, segs).led, w.objs + [segs], others, segs[i].ext);
    }
  }

  // ---------- the other acts ----------

  /** Only bits that are allowed to change have changed. */
  lemma MoreBits(s: Ledger, r: Ledger, objs: seq<Object>, noted: seq<(nat, nat)>)
    requires Accounts(s, objs, noted) && WellFormed(r) && |r.bits| == |s.bits|
    requires r.live == s.live && r.refcounts == s.refcounts && r.shared == s.shared
    requires forall e :: 0 <= e < |s.bits| && s.bits[e] && !r.bits[e] ==> s.live[e] == 0
    ensures Accounts(r, objs, noted)
  {
    forall e | 0 <= e < |r.bits| ensures LiveAccounts(r, objs, noted, e) && RefAccounts(r, objs, e) {
      assert LiveAccounts(s, objs, noted, e) && RefAccounts(s, objs, e);
    }
    forall k ensures KeyAccounts(r, objs, k) {
      assert KeyAccounts(s, objs, k);
    }
  }

  lemma AllocateAccounts(t: Txn, objs: seq<Object>, noted: seq<(nat, nat)>, c: Call)
    requires Accounts(t.led, objs, noted)
    requires (c.CallAllocate? || c.CallNoSpace?) && Legal(t, c)
    ensures Accounts(Do(t, c).led, objs, noted)
  {
    var s := t.led;
    AccountsAreSound(s, objs, noted);
    var took := TakeAll(Isolate(s, c.skipped), c.ids);
    TakeAllAt(Isolate(s, c.skipped), c.ids);
    assert took.refcounts == s.refcounts;
    MoreBits(s, took, objs, noted);
    if c.CallNoSpace? {
      GiveBackAllAt(took, c.ids);
      var r := GiveBackAll(took, c.ids);
      assert r.refcounts == s.refcounts && r.live == s.live;
      MoreBits(took, r, objs, noted);
    }
  }

  /** Only bits of extents without live bytes are cleared, and the share table is left alone. */
  lemma MoreSpace(s: Ledger, r: Ledger, objs: seq<Object>, noted: seq<(nat, nat)>)
    requires SpaceAccounts(s, objs, noted) && WellFormed(r) && |r.bits| == |s.bits|
    requires r.live == s.live && r.shared == s.shared
    requires forall e :: 0 <= e < |s.bits| && s.bits[e] && !r.bits[e] ==> s.live[e] == 0
    ensures SpaceAccounts(r, objs, noted)
  {
    forall e | 0 <= e < |r.bits| ensures LiveAccounts(r, objs, noted, e) {
      assert LiveAccounts(s, objs, noted, e);
    }
    forall k ensures KeyAccounts(r, objs, k) {
      assert KeyAccounts(s, objs, k);
    }
  }

  lemma NoteAccounts(t: Txn, objs: seq<Object>, noted: seq<(nat, nat)>, seg: Seg)
    requires Accounts(t.led, objs, noted) && seg.ext < |t.led.bits| && t.led.bits[seg.ext]
    requires Fits(|t.led.bits|, Keys(objs), noted + [(seg.ext, seg.len)])
    ensures Accounts(NoteInflight(t, seg).led, objs, noted + [(seg.ext, seg.len)])
  {
    var key := (seg.ext, seg.len);
    var r := NoteInflight(t, seg);
    forall e | 0 <= e < |t.led.bits| ensures LiveAccounts(r.led, objs, noted + [key], e) {
      assert LiveAccounts(t.led, objs, noted, e);
      SumForAppend(noted, key, e);
      GainLiveExact(t, key, e);
    }
    forall e | 0 <= e < |t.led.bits| ensures RefAccounts(r.led, objs, e) {
      assert RefAccounts(t.led, objs, e);
    }
    forall k ensures KeyAccounts(r.led, objs, k) {
      assert KeyAccounts(t.led, objs, k);
    }
  }

  ghost predicate WorldAccounts(w: World) {
    Accounts(w.txn.led, w.objs, Noted(w))
  }

  /** Every act of a transaction keeps the ledger in step with the objects. */
  lemma ActAccounts(w: World, a: Act)
    requires WorldAccounts(w) && ActLegal(w, a)
    ensures WorldAccounts(Perform(w, a))
  {
    match a
    case ActAllocate(ids, skipped, ranges) =>
      AllocateAccounts(w.txn, w.objs, Noted(w), CallAllocate(ids, skipped, ranges));
    case ActNoSpace(ids, skipped) =>
      TakeAllAt(Isolate(w.txn.led, skipped), ids);
      AllocateAccounts(w.txn, w.objs, Noted(w), CallNoSpace(ids, skipped));
    case ActNote(seg) => NoteAccounts(w.txn, w.objs, Noted(w), seg);
    case ActPut(segs) =>
      assert Noted(w) + [] == Noted(w);
      PutAccounts(w, segs, []);
    case ActCopy(segs) =>
      InRangeOk(w.txn.led, segs);
      CopyAccounts(w.txn, w.objs, segs, Noted(w));
      CopyKeepsNotes(w.txn, segs);
    case ActDelete(i) =>
      InRangeOk(w.txn.led, w.objs[i]);
      DeleteAccounts(w.txn, w.objs, i, Noted(w));
      DeleteKeepsNotes(w.txn, w.objs[i]);
  }

  lemma CopyKeepsNotes(t: Txn, segs: seq<Seg>)
    requires WellFormed(t.led) && InRange(t.led, segs)
    ensures ShareObject(t, segs).draft.inflight == t.draft.inflight
  {
    SeenInRange(t.led, segs, []);
    ShareSegsFrame(t, segs);
    RefUpFrame(ShareSegs(t, segs), Seen(segs, []));
  }

  lemma DeleteKeepsNotes(t: Txn, segs: seq<Seg>)
    requires WellFormed(t.led) && InRange(t.led, segs)
    ensures ReleaseObject(t, segs).draft.inflight == t.draft.inflight
  {
    SeenInRange(t.led, segs, []);
    ReleaseKeepsNotes(t, segs);
    RefDownFrame(ReleaseSegs(t, segs), Seen(segs, []));
  }

  lemma {:induction false} ReleaseKeepsNotes(t: Txn, segs: seq<Seg>)
    requires WellFormed(t.led) && InRange(t.led, segs)
    ensures ReleaseSegs(t, segs).draft.inflight == t.draft.inflight
    decreases |segs|
  {
    if segs != [] {
      ReleaseKeepsNotes(ReleaseSeg(t, segs[0]), segs[1..]);
    }
  }

  // ---------- whole runs ----------

  ghost predicate ActsLegal(w: World, acts: seq<Act>)
    requires WellFormed(w.txn.led) && ObjectsOk(|w.txn.led.bits|, w.objs)
    decreases |acts|
  {
    acts == [] || (ActLegal(w, acts[0]) && ActsLegal(Perform(w, acts[0]), acts[1..]))
  }

  ghost function PerformAll(w: World, acts: seq<Act>): (r: World)
    requires WellFormed(w.txn.led) && ObjectsOk(|w.txn.led.bits|, w.objs) && ActsLegal(w, acts)
    ensures WellFormed(r.txn.led) && |r.txn.led.bits| == |w.txn.led.bits|
    ensures ObjectsOk(|r.txn.led.bits|, r.objs)
    decreases |acts|
  {
    if acts == [] then w else PerformAll(Perform(w, acts[0]), acts[1..])
  }

  lemma {:induction false} ActsAccount(w: World, acts: seq<Act>)
    requires WorldAccounts(w) && ActsLegal(w, acts)
    ensures WorldAccounts(PerformAll(w, acts))
    decreases |acts|
  {
    if acts != [] {
      ActAccounts(w, acts[0]);
      ActsAccount(Perform(w, acts[0]), acts[1..]);
    }
  }

  /** The state between transactions. */
  datatype Store = Store(led: Ledger, objs: seq<Object>)

  ghost predicate StoreOk(st: Store) {
    Accounts(st.led, st.objs, [])
  }

  function Begin(st: Store): World {
    World(Txn(st.led, EMPTY_DRAFT), st.objs, false)
  }

  datatype Step =
    | Commit(acts: seq<Act>)
    | Abort(calls: seq<Call>, afterCommitPoint: bool)
    | Pin(ids: seq<nat>)
    | Unpin(ids: seq<nat>)
    | RepairLeak(e: nat)

  ghost predicate StepLegal(st: Store, p: Step)
    requires WellFormed(st.led) && ObjectsOk(|st.led.bits|, st.objs)
  {
    match p
    case Commit(acts) =>
      && ActsLegal(Begin(st), acts)
      && var w := PerformAll(Begin(st), acts);
         w.put || w.txn.draft.inflight == []
    case Abort(calls, _) =>
      && LegalAll(Txn(st.led, EMPTY_DRAFT), calls)
      && var t := DoAll(Txn(st.led, EMPTY_DRAFT), calls);
         forall k :: k in t.draft.sharedInc && k in t.draft.sharedDec ==>
           k in Keys(st.objs) && Undoable(st.led.shared, t.draft, k)
    case Pin(_) => true
    case Unpin(ids) => UnpinLegal(st.led, ids)
    case RepairLeak(e) => e < |st.led.bits| && Touching(st.objs, e) == 0
  }

  // ---------- acts as calls ----------

  function CallOf(w: World, a: Act): Call
    requires a.ActDelete? ==> a.i < |w.objs|
  {
    match a
    case ActAllocate(ids, skipped, ranges) => CallAllocate(ids, skipped, ranges)
    case ActNoSpace(ids, skipped) => CallNoSpace(ids, skipped)
    case ActNote(seg) => CallNote(seg)
    case ActPut(segs) => CallAdd(segs)
    case ActCopy(segs) => CallShare(segs)
    case ActDelete(i) => CallRelease(w.objs[i])
  }

  /** What the engine does is within what rollback covers. */
  lemma ActIsLegalCall(w: World, a: Act)
    requires WorldAccounts(w) && ActLegal(w, a)
    ensures Legal(w.txn, CallOf(w, a)) && Do(w.txn, CallOf(w, a)) == Perform(w, a).txn
  {
    if a.ActCopy? {
      InRangeOk(w.txn.led, a.segs);
      forall i | 0 <= i < |a.segs| ensures w.txn.led.bits[a.segs[i].ext] {
        assert LiveAccounts(w.txn.led, w.objs, Noted(w), a.segs[i].ext);
        BytesRemove(Keys(w.objs), a.segs[i], a.segs[i].ext);
      }
    } else if a.ActDelete? {
      InRangeOk(w.txn.led, w.objs[a.i]);
      assert ObjectOk(|w.txn.led.bits|, w.objs[a.i]);
    }
  }

  lemma {:induction false} ActsTrack(s0: Ledger, w: World, acts: seq<Act>)
    requires WorldAccounts(w) && ActsLegal(w, acts) && Tracks(s0, w.txn)
    ensures Tracks(s0, PerformAll(w, acts).txn)
    decreases |acts|
  {
    if acts != [] {
      ActIsLegalCall(w, acts[0]);
      CallTracks(s0, w.txn, CallOf(w, acts[0]));
      ActAccounts(w, acts[0]);
      ActsTrack(s0, Perform(w, acts[0]), acts[1..]);
    }
  }

  lemma ActsTracked(st: Store, acts: seq<Act>)
    requires StoreOk(st) && ActsLegal(Begin(st), acts)
    ensures Tracks(st.led, PerformAll(Begin(st), acts).txn)
  {
    AccountsAreSound(st.led, st.objs, []);
    BeginTracks(st.led);
    ActsTrack(st.led, Begin(st), acts);
  }

  lemma CallsTracked(st: Store, calls: seq<Call>)
    requires StoreOk(st) && LegalAll(Txn(st.led, EMPTY_DRAFT), calls)
    ensures Tracks(st.led, DoAll(Txn(st.led, EMPTY_DRAFT), calls))
  {
    AccountsAreSound(st.led, st.objs, []);
    BeginTracks(st.led);
    DraftTracks(st.led, Txn(st.led, EMPTY_DRAFT), calls);
  }

  // ---------- pins and leaks ----------

  function PinAll(s: Ledger, ids: seq<nat>): (r: Ledger)
    requires WellFormed(s)
    ensures WellFormed(r) && r == s.(pins := r.pins)
    decreases |ids|
  {
    if ids == [] then s
    else PinAll(if ids[0] < |s.bits| then s.(pins := s.pins[ids[0] := s.pins[ids[0]] + 1]) else s, ids[1..])
  }

  /** The last unpin of an isolated extent frees it, unless it holds live bytes again. */
  function ReleaseIsolated(s: Ledger, e: nat): (r: Ledger)
    requires WellFormed(s) && e < |s.bits|
    ensures WellFormed(r) && |r.bits| == |s.bits|
  {
    if e !in s.isolated || s.pins[e] > 0 || s.live[e] > 0 then s
    else s.(isolated := s.isolated - {e},
            bits := s.bits[e := false],
            totalFree := if s.bits[e] then s.totalFree + 1 else s.totalFree,
            phase := s.phase[e := Free],
            refcounts := s.refcounts[e := 0])
  }

  function UnpinOne(s: Ledger, e: nat): (r: Ledger)
    requires WellFormed(s) && (e < |s.bits| ==> s.pins[e] > 0)
    ensures WellFormed(r) && |r.bits| == |s.bits|
  {
    if e >= |s.bits| then s else
      var u := s.(pins := s.pins[e := s.pins[e] - 1]);
      if u.pins[e] == 0 then ReleaseIsolated(u, e) else u
  }

  /** Every unpin gives back a pin that somebody holds. */
  ghost predicate UnpinLegal(s: Ledger, ids: seq<nat>)
    requires WellFormed(s)
    decreases |ids|
  {
    ids == [] || ((ids[0] < |s.bits| ==> s.pins[ids[0]] > 0) && UnpinLegal(UnpinOne(s, ids[0]), ids[1..]))
  }

  ghost function UnpinAll(s: Ledger, ids: seq<nat>): (r: Ledger)
    requires WellFormed(s) && UnpinLegal(s, ids)
    ensures WellFormed(r) && |r.bits| == |s.bits|
    decreases |ids|
  {
    if ids == [] then s else UnpinAll(UnpinOne(s, ids[0]), ids[1..])
  }

  /** Frees an allocated, unpinned extent that no object reaches. */
  function ReleaseLeaked(t: Txn, e: nat): (r: Txn)
    requires WellFormed(t.led) && e < |t.led.bits|
    ensures WellFormed(r.led) && |r.led.bits| == |t.led.bits|
  {
    if !t.led.bits[e] || t.led.pins[e] > 0 then t
    else Txn(t.led.(bits := t.led.bits[e := false], refcounts := t.led.refcounts[e := 0],
                    live := t.led.live[e := 0], phase := t.led.phase[e := Free],
                    totalFree := t.led.totalFree + 1),
             t.draft.(refDec := t.draft.refDec + [e], cleared := t.draft.cleared + [e]))
  }

  ghost function Next(st: Store, p: Step): (r: Store)
    requires StoreOk(st) && StepLegal(st, p)
    ensures WellFormed(r.led) && |r.led.bits| == |st.led.bits| && ObjectsOk(|r.led.bits|, r.objs)
  {
    match p
    case Commit(acts) =>
      var w := PerformAll(Begin(st), acts);
      ActsTracked(st, acts);
      Store(Settle(w.txn.led, w.txn.draft.cleared), w.objs)
    case Abort(calls, afterCommitPoint) =>
      var t := DoAll(Txn(st.led, EMPTY_DRAFT), calls);
      CallsTracked(st, calls);
      st.(led := Rollback(if afterCommitPoint then Settle(t.led, t.draft.cleared) else t.led, t.draft))
    case Pin(ids) => st.(led := PinAll(st.led, ids))
    case Unpin(ids) => st.(led := UnpinAll(st.led, ids))
    case RepairLeak(e) =>
      var t := ReleaseLeaked(Txn(st.led, EMPTY_DRAFT), e);
      st.(led := Settle(t.led, t.draft.cleared))
  }

  lemma CommitOk(st: Store, acts: seq<Act>)
    requires StoreOk(st) && StepLegal(st, Commit(acts))
    ensures StoreOk(Next(st, Commit(acts)))
  {
    ActsAccount(Begin(st), acts);
    ActsTracked(st, acts);
    var w := PerformAll(Begin(st), acts);
    SettleAt(w.txn.led, w.txn.draft.cleared);
    MoreBits(w.txn.led, Settle(w.txn.led, w.txn.draft.cleared), w.objs, []);
  }

  /** The entry of a held key may come and go while it stands for a single holder. */
  ghost predicate SameHolding(s: Ledger, r: Ledger, objs: seq<Object>, k: Seg) {
    KeepsEntry(s.shared, r.shared, k) ||
    (k in Keys(objs) && Holding(Entry(r.shared, k)) == Holding(Entry(s.shared, k)))
  }

  lemma RestoredAccounts(s: Ledger, r: Ledger, objs: seq<Object>)
    requires Accounts(s, objs, []) && WellFormed(r) && Restores(s, r, iset{})
    requires forall k :: SameHolding(s, r, objs, k)
    ensures Accounts(r, objs, [])
  {
    forall e | 0 <= e < |r.bits| ensures LiveAccounts(r, objs, [], e) && RefAccounts(r, objs, e) {
      assert LiveAccounts(s, objs, [], e) && RefAccounts(s, objs, e);
    }
    forall k ensures KeyAccounts(r, objs, k) {
      assert KeyAccounts(s, objs, k) && SameHolding(s, r, objs, k);
      HeldIffKey(objs, k);
    }
  }

  /** A failed transaction leaves the accounting as it was, also one that shared and released the
      same segment, as long as it can be undone. */
  lemma AbortOk(st: Store, calls: seq<Call>, afterCommitPoint: bool)
    requires StoreOk(st) && StepLegal(st, Abort(calls, afterCommitPoint))
    ensures StoreOk(Next(st, Abort(calls, afterCommitPoint)))
  {
    CallsTracked(st, calls);
    var t := DoAll(Txn(st.led, EMPTY_DRAFT), calls);
    var d := t.draft;
    RollbackFrom(st.led, t, if afterCommitPoint then Settle(t.led, d.cleared) else t.led);
    var r := Next(st, Abort(calls, afterCommitPoint)).led;
    forall k ensures SameHolding(st.led, r, st.objs, k) {
      if k in d.sharedInc && k in d.sharedDec {
        ShareAndReleaseExact(st.led, calls, k);
        SettleAt(t.led, d.cleared);
        UndoneShares(if afterCommitPoint then Settle(t.led, d.cleared) else t.led, d);
      } else {
        assert k in OneSided(d);
      }
    }
    RestoredAccounts(st.led, r, st.objs);
  }

  /** A key that the draft has both shared and released keeps an entry, which must count its holders. */
  lemma TwoSidedEntry(st: Store, calls: seq<Call>, s: Ledger, k: Seg)
    requires StoreOk(st) && LegalAll(Txn(st.led, EMPTY_DRAFT), calls)
    requires var t := DoAll(Txn(st.led, EMPTY_DRAFT), calls);
      && k in t.draft.sharedInc && k in t.draft.sharedDec
      && WellFormed(s) && DraftInRange(s, t.draft) && s.shared == t.led.shared
    requires var d := DoAll(Txn(st.led, EMPTY_DRAFT), calls).draft;
      KeyAccounts(Rollback(s, d), st.objs, k)
    ensures k in Keys(st.objs) && Undoable(st.led.shared, DoAll(Txn(st.led, EMPTY_DRAFT), calls).draft, k)
  {
    var d := DoAll(Txn(st.led, EMPTY_DRAFT), calls).draft;
    ShareAndReleaseExact(st.led, calls, k);
    UndoneShares(s, d);
    UndoShareAt(s.shared, d.sharedInc, d.sharedDec, k);
    CountPositive(d.sharedDec, k);
    assert KeyAccounts(st.led, st.objs, k);
    HeldIffKey(st.objs, k);
  }

  /** A failed transaction, before its commit point or behind it, leaves the accounting as it was if and
      only if every segment that it both shared and released was held and can be undone. */
  lemma AbortIff(st: Store, calls: seq<Call>, afterCommitPoint: bool)
    requires StoreOk(st) && LegalAll(Txn(st.led, EMPTY_DRAFT), calls)
    ensures var t := DoAll(Txn(st.led, EMPTY_DRAFT), calls);
      && Below(t.draft.cleared, |t.led.bits|)
      && var s := if afterCommitPoint then Settle(t.led, t.draft.cleared) else t.led;
         && DraftInRange(s, t.draft)
         && (StoreOk(st.(led := Rollback(s, t.draft))) <==> StepLegal(st, Abort(calls, afterCommitPoint)))
  {
    CallsTracked(st, calls);
    var t := DoAll(Txn(st.led, EMPTY_DRAFT), calls);
    SettleAt(t.led, t.draft.cleared);
    var s := if afterCommitPoint then Settle(t.led, t.draft.cleared) else t.led;
    if StepLegal(st, Abort(calls, afterCommitPoint)) {
      AbortOk(st, calls, afterCommitPoint);
    }
    if StoreOk(st.(led := Rollback(s, t.draft))) {
      forall k | k in t.draft.sharedInc && k in t.draft.sharedDec
        ensures k in Keys(st.objs) && Undoable(st.led.shared, t.draft, k)
      {
        TwoSidedEntry(st, calls, s, k);
      }
    }
  }

  lemma UnpinOneSpace(s: Ledger, e: nat, objs: seq<Object>)
    requires SpaceAccounts(s, objs, []) && (e < |s.bits| ==> s.pins[e] > 0)
    ensures SpaceAccounts(UnpinOne(s, e), objs, [])
  {
    if e < |s.bits| {
      MoreSpace(s, UnpinOne(s, e), objs, []);
    }
  }

  lemma {:induction false} UnpinSpace(s: Ledger, ids: seq<nat>, objs: seq<Object>)
    requires SpaceAccounts(s, objs, []) && UnpinLegal(s, ids)
    ensures SpaceAccounts(UnpinAll(s, ids), objs, [])
    decreases |ids|
  {
    if ids != [] {
      UnpinOneSpace(s, ids[0], objs);
      UnpinSpace(UnpinOne(s, ids[0]), ids[1..], objs);
    }
  }

  lemma HeadCounts(ids: seq<nat>, e: nat)
    requires ids != []
    ensures multiset(ids)[e] == (if ids[0] == e then 1 else 0) + multiset(ids[1..])[e]
  {
    assert ids == [ids[0]] + ids[1..];
  }

  /** An extent gains a pin each time that it is named. */
  lemma {:induction false} PinCounts(s: Ledger, ids: seq<nat>, e: nat)
    requires WellFormed(s) && e < |s.bits|
    ensures PinAll(s, ids).pins[e] == s.pins[e] + multiset(ids)[e]
    decreases |ids|
  {
    if ids != [] {
      HeadCounts(ids, e);
      PinCounts(if ids[0] < |s.bits| then s.(pins := s.pins[ids[0] := s.pins[ids[0]] + 1]) else s, ids[1..], e);
    }
  }

  /** It loses one each time, and is freed if it is isolated, has no live bytes and loses its last one. */
  lemma {:induction false} UnpinCounts(s: Ledger, ids: seq<nat>, e: nat)
    requires WellFormed(s) && UnpinLegal(s, ids) && e < |s.bits|
    ensures var r, n := UnpinAll(s, ids), multiset(ids)[e];
      && n <= s.pins[e] && r.pins[e] == s.pins[e] - n
      && var freed := 0 < n == s.pins[e] && e in s.isolated && s.live[e] == 0;
         && r.bits[e] == (s.bits[e] && !freed) && (e in r.isolated <==> e in s.isolated && !freed)
    decreases |ids|
  {
    if ids != [] {
      HeadCounts(ids, e);
      UnpinCounts(UnpinOne(s, ids[0]), ids[1..], e);
    }
  }

  /** Nobody gives back more pins than there are. */
  lemma {:induction false} UnpinLegalIff(s: Ledger, ids: seq<nat>)
    requires WellFormed(s)
    ensures UnpinLegal(s, ids) <==> forall e :: 0 <= e < |s.bits| ==> multiset(ids)[e] <= s.pins[e]
    decreases |ids|
  {
    if ids != [] && (ids[0] < |s.bits| ==> s.pins[ids[0]] > 0) {
      var r := UnpinOne(s, ids[0]);
      UnpinLegalIff(r, ids[1..]);
      forall e | 0 <= e < |s.bits|
        ensures multiset(ids)[e] <= s.pins[e] <==> multiset(ids[1..])[e] <= r.pins[e]
      {
        HeadCounts(ids, e);
      }
    } else if ids != [] {
      HeadCounts(ids, ids[0]);
    }
  }

  /** Nobody can unpin an extent that is not pinned. */
  lemma {:induction false} UnpinSkips(s: Ledger, ids: seq<nat>, e: nat)
    requires WellFormed(s) && UnpinLegal(s, ids) && e < |s.bits| && s.pins[e] == 0
    ensures UnpinAll(s, ids).pins[e] == 0 && UnpinAll(s, ids).bits[e] == s.bits[e]
    decreases |ids|
  {
    if ids != [] {
      UnpinSkips(UnpinOne(s, ids[0]), ids[1..], e);
    }
  }

  lemma {:induction false} PinSkips(s: Ledger, ids: seq<nat>, e: nat)
    requires WellFormed(s) && e < |s.bits| && e !in ids
    ensures PinAll(s, ids).pins[e] == s.pins[e]
    decreases |ids|
  {
    if ids != [] {
      PinSkips(if ids[0] < |s.bits| then s.(pins := s.pins[ids[0] := s.pins[ids[0]] + 1]) else s, ids[1..], e);
    }
  }

  lemma UnpinOneOk(s: Ledger, e: nat, objs: seq<Object>)
    requires Accounts(s, objs, []) && (e < |s.bits| ==> s.pins[e] > 0)
    ensures Accounts(UnpinOne(s, e), objs, [])
  {
    if e < |s.bits| {
      AccountsAreSound(s, objs, []);
      var r := UnpinOne(s, e);
      assert r.refcounts == s.refcounts;
      MoreBits(s, r, objs, []);
    }
  }

  lemma {:induction false} UnpinOk(s: Ledger, ids: seq<nat>, objs: seq<Object>)
    requires Accounts(s, objs, []) && UnpinLegal(s, ids)
    ensures Accounts(UnpinAll(s, ids), objs, [])
    decreases |ids|
  {
    if ids != [] {
      UnpinOneOk(s, ids[0], objs);
      UnpinOk(UnpinOne(s, ids[0]), ids[1..], objs);
    }
  }

  lemma RepairOk(st: Store, e: nat)
    requires StoreOk(st) && StepLegal(st, RepairLeak(e))
    ensures StoreOk(Next(st, RepairLeak(e)))
  {
    var s := st.led;
    assert LiveAccounts(s, st.objs, [], e) && RefAccounts(s, st.objs, e);
    TouchedHasKey(st.objs, e);
    NoKeyNoBytes(Keys(st.objs), e);
    var t := ReleaseLeaked(Txn(s, EMPTY_DRAFT), e);
    assert t.led.live == s.live && t.led.refcounts == s.refcounts;
    MoreBits(s, t.led, st.objs, []);
    SettleAt(t.led, t.draft.cleared);
    MoreBits(t.led, Settle(t.led, t.draft.cleared), st.objs, []);
  }

  /** Repairing a leak frees an extent that no object touches, unless it is pinned, and nothing else; the log
      says so. */
  lemma RepairFrees(st: Store, e: nat)
    requires StoreOk(st) && StepLegal(st, RepairLeak(e))
    ensures var s, r := st.led, Next(st, RepairLeak(e)).led;
      var frees := s.bits[e] && s.pins[e] == 0;
      && r.bits == s.bits[e := s.bits[e] && s.pins[e] > 0]
      && r == s.(bits := r.bits, phase := r.phase, totalFree := s.totalFree + if frees then 1 else 0)
      && RecordOf(ReleaseLeaked(Txn(s, EMPTY_DRAFT), e).draft) == Record([], [], if frees then [e] else [])
  {
    var s := st.led;
    assert LiveAccounts(s, st.objs, [], e) && RefAccounts(s, st.objs, e);
    TouchedHasKey(st.objs, e);
    NoKeyNoBytes(Keys(st.objs), e);
    assert s.live[e] == 0 && s.refcounts[e] == 0;
    var t := ReleaseLeaked(Txn(s, EMPTY_DRAFT), e);
    if s.bits[e] && s.pins[e] == 0 {
      assert t.draft.cleared == [e];
      assert Settle(t.led, [e]) == SettleOne(t.led, e);
    }
  }

  /** Every step of a run keeps the accounting invariant. */
  lemma StepOk(st: Store, p: Step)
    requires StoreOk(st) && StepLegal(st, p)
    ensures StoreOk(Next(st, p))
  {
    match p
    case Commit(acts) => CommitOk(st, acts);
    case Abort(calls, afterCommitPoint) => AbortOk(st, calls, afterCommitPoint);
    case Pin(ids) => MoreBits(st.led, PinAll(st.led, ids), st.objs, []);
    case Unpin(ids) => UnpinOk(st.led, ids, st.objs);
    case RepairLeak(e) => RepairOk(st, e);
  }

  ghost predicate RunLegal(st: Store, run: seq<Step>)
    requires StoreOk(st)
    decreases |run|
  {
    run == [] ||
    (StepLegal(st, run[0]) && (StepOk(st, run[0]); RunLegal(Next(st, run[0]), run[1..])))
  }

  ghost function RunAll(st: Store, run: seq<Step>): (r: Store)
    requires StoreOk(st) && RunLegal(st, run)
    decreases |run|
  {
    if run == [] then st else StepOk(st, run[0]); RunAll(Next(st, run[0]), run[1..])
  }

  /** After any run the ledger agrees with the live objects: live bytes, reference counts, share
      entries and the bitmap. */
  lemma {:induction false} AccountingOverRuns(st: Store, run: seq<Step>)
    requires StoreOk(st) && RunLegal(st, run)
    ensures StoreOk(RunAll(st, run))
    decreases |run|
  {
    if run != [] {
      StepOk(st, run[0]);
      AccountingOverRuns(Next(st, run[0]), run[1..]);
    }
  }

  function NewLedger(n: nat): (r: Ledger)
  {
    Ledger(seq(n, _ => false), seq(n, _ => 0), seq(n, _ => 0), seq(n, _ => 0), seq(n, _ => Free),
           map[], seq(n, _ => 0), {}, 0, 0)
  }

  lemma NewStoreOk(n: nat)
    ensures StoreOk(Store(NewLedger(n), []))
  {
    assert Keys([]) == {};
  }

  // ---------- counters of the share table ----------

  lemma {:induction false} HoldersAtMost(n: nat, objs: seq<Object>, k: Seg)
    requires ObjectsOk(n, objs)
    ensures Holders(objs, k) <= |objs|
    decreases |objs|
  {
    if objs != [] {
      assert ObjectOk(n, objs[0]);
      DistinctCount(objs[0], k);
      assert forall j :: 0 <= j < |objs| - 1 ==> objs[1..][j] == objs[j + 1];
      HoldersAtMost(n, objs[1..], k);
    }
  }

  /** No share entry exceeds the number of objects, so that with fewer than 2^32 of them a 32-bit entry
      never wraps. */
  lemma EntriesFit(st: Store, k: Seg)
    requires StoreOk(st) && k in st.led.shared
    ensures st.led.shared[k] <= |st.objs|
  {
    assert KeyAccounts(st.led, st.objs, k);
    HoldersAtMost(|st.led.bits|, st.objs, k);
  }
}
