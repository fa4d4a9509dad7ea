/** The other outcome of an open switch. While its draft is applied, the objects are those without the
    switch, but if it commits they will be those with it, and nothing happens to the ledger any more. What
    each transaction of others may do so that the books are right then, exactly. */
module CompactionOutcomes {
  import opened Ledgers
  import opened Rollbacks
  import opened Holdings
  import opened Runs
  import opened Undoing
  import opened CompactionLedgers
  import opened CompactionWindows

  // ---------- the objects as the switch will leave them ----------

  /** The holders that a segment has once the copies have replaced the planned segments. */
  function Then(objs: seq<Object>, copies: seq<Seg>, gone: seq<Seg>, k: Seg): int {
    Holders(objs, k) + Count(copies, k) - Count(gone, k)
  }

  function Named(segs: seq<Seg>): set<Seg> {
    set k | k in segs
  }

  ghost function Kept(objs: seq<Object>, copies: seq<Seg>, gone: seq<Seg>): set<Seg> {
    set k | k in Keys(objs) + Named(copies) && Then(objs, copies, gone, k) > 0
  }

  lemma KeptIff(objs: seq<Object>, copies: seq<Seg>, gone: seq<Seg>, k: Seg)
    ensures k in Kept(objs, copies, gone) <==> Then(objs, copies, gone, k) > 0
  {
    HeldIffKey(objs, k);
    CountPositive(copies, k);
  }

  ghost predicate LiveAhead(s: Ledger, objs: seq<Object>, copies: seq<Seg>, gone: seq<Seg>, e: nat)
    requires WellFormed(s) && e < |s.bits|
  {
    s.live[e] == Bytes(Kept(objs, copies, gone), e) && (s.live[e] > 0 ==> s.bits[e])
  }

  ghost predicate KeyAhead(s: Ledger, objs: seq<Object>, copies: seq<Seg>, gone: seq<Seg>, k: Seg) {
    var n, holders := Entry(s.shared, k), Then(objs, copies, gone, k);
    if n > 0 then n == holders else 0 <= holders <= 1
  }

  /** The ledger accounts for the objects as the switch will leave them. */
  ghost predicate Ahead(s: Ledger, objs: seq<Object>, copies: seq<Seg>, gone: seq<Seg>) {
    && WellFormed(s) && ObjectsOk(|s.bits|, objs)
    && (forall e :: 0 <= e < |s.bits| ==> LiveAhead(s, objs, copies, gone, e))
    && forall k :: KeyAhead(s, objs, copies, gone, k)
  }

  /** `after` has the copies instead of the planned segments. */
  ghost predicate Exchanged(obj: Object, copies: seq<Seg>, gone: seq<Seg>, after: Object) {
    forall k :: Count(after, k) == Count(obj, k) + Count(copies, k) - Count(gone, k)
  }

  lemma ThenIs(objs: seq<Object>, i: nat, copies: seq<Seg>, gone: seq<Seg>, after: Object)
    requires i < |objs| && Exchanged(objs[i], copies, gone, after)
    ensures forall k :: Holders(objs[i := after], k) == Then(objs, copies, gone, k)
    ensures Keys(objs[i := after]) == Kept(objs, copies, gone)
  {
    forall k
      ensures Holders(objs[i := after], k) == Then(objs, copies, gone, k)
      ensures k in Keys(objs[i := after]) <==> k in Kept(objs, copies, gone)
    {
      HoldersUpdate(objs, i, after, k);
      HeldIffKey(objs[i := after], k);
      KeptIff(objs, copies, gone, k);
    }
  }

  /** A commit leaves right books if and only if they were right for this outcome before. */
  lemma CommitExactly(s: Ledger, objs: seq<Object>, i: nat, copies: seq<Seg>, gone: seq<Seg>, after: Object)
    requires i < |objs| && ObjectsOk(|s.bits|, objs) && ObjectsOk(|s.bits|, objs[i := after])
    requires Exchanged(objs[i], copies, gone, after)
    ensures SpaceAccounts(s, objs[i := after], []) <==> Ahead(s, objs, copies, gone)
  {
    var next := objs[i := after];
    ThenIs(objs, i, copies, gone, after);
    if SpaceAccounts(s, next, []) {
      forall e | 0 <= e < |s.bits| ensures LiveAhead(s, objs, copies, gone, e) {
        assert LiveAccounts(s, next, [], e);
      }
      forall k ensures KeyAhead(s, objs, copies, gone, k) {
        assert KeyAccounts(s, next, k);
      }
    }
    if Ahead(s, objs, copies, gone) {
      forall e | 0 <= e < |s.bits| ensures LiveAccounts(s, next, [], e) {
        assert LiveAhead(s, objs, copies, gone, e);
      }
      forall k ensures KeyAccounts(s, next, k) {
        assert KeyAhead(s, objs, copies, gone, k);
      }
    }
  }

  // ---------- sums ----------

  lemma BytesTwice(a: set<Seg>, b: set<Seg>, e: nat)
    ensures Bytes(a, e) + Bytes(b, e) == Bytes(a + b, e) + Bytes(a * b, e)
  {
    assert a + b == a + (b - a) && b == (b - a) + a * b;
    BytesUnion(a, b - a, e);
    BytesUnion(b - a, a * b, e);
  }

  /** Two pairs of sets that have each segment equally often have the same bytes. */
  lemma BytesAlike(a: set<Seg>, b: set<Seg>, c: set<Seg>, d: set<Seg>, e: nat)
    requires forall k :: (k in a || k in b <==> k in c || k in d) && (k in a && k in b <==> k in c && k in d)
    ensures Bytes(a, e) + Bytes(b, e) == Bytes(c, e) + Bytes(d, e)
  {
    assert a + b == c + d && a * b == c * d;
    BytesTwice(a, b, e);
    BytesTwice(c, d, e);
  }

  lemma BytesNamed(segs: seq<Seg>, e: nat)
    requires Distinct(segs)
    ensures Bytes(Named(segs), e) == SegSum(segs, e)
  {
    BytesAddAll({}, segs, e);
    assert {} + (set k | k in segs) == Named(segs);
  }

  // ---------- deleting and copying beside an open switch ----------

  /** Each of the segments will have a holder once the switch has committed. */
  ghost predicate Outlived(objs: seq<Object>, copies: seq<Seg>, gone: seq<Seg>, segs: seq<Seg>) {
    forall k :: k in segs ==> Then(objs, copies, gone, k) >= 1
  }

  lemma DeleteThen(objs: seq<Object>, i: nat, copies: seq<Seg>, gone: seq<Seg>, k: Seg)
    requires i < |objs| && Distinct(objs[i])
    ensures Then(objs[i := []], copies, gone, k) == Then(objs, copies, gone, k) - (if k in objs[i] then 1 else 0)
  {
    HoldersUpdate(objs, i, [], k);
    DistinctCount(objs[i], k);
  }

  lemma DeleteLive(s: Ledger, r: Ledger, objs: seq<Object>, i: nat, copies: seq<Seg>, gone: seq<Seg>, e: nat)
    requires Ahead(s, objs, copies, gone) && i < |objs| && Distinct(objs[i]) && Outlived(objs, copies, gone, objs[i])
    requires WellFormed(r) && |r.bits| == |s.bits| && e < |s.bits|
    requires FreedAt(s, r, TakenOff(s.shared, s.live[e], objs[i], e), e)
    ensures LiveAhead(r, objs[i := []], copies, gone, e)
  {
    var kept, rest, once := Kept(objs, copies, gone), Kept(objs[i := []], copies, gone), Once(s.shared, objs[i]);
    forall k ensures k in kept <==> k in rest || k in once
             ensures !(k in rest && k in once)
    {
      assert KeyAhead(s, objs, copies, gone, k);
      DeleteThen(objs, i, copies, gone, k);
      KeptIff(objs, copies, gone, k);
      KeptIff(objs[i := []], copies, gone, k);
    }
    assert kept == rest + once && LiveAhead(s, objs, copies, gone, e);
    BytesUnion(rest, once, e);
    TakenIsOnce(s.shared, s.live[e], objs[i], e);
  }

  /** If the switch commits, a delete beside it leaves right books if and only if each segment of the
      object will have a holder then: the object is not the last one with a planned segment. */
  lemma DeleteAhead(s: Ledger, objs: seq<Object>, i: nat, copies: seq<Seg>, gone: seq<Seg>)
    requires Ahead(s, objs, copies, gone) && i < |objs| && InRange(s, objs[i])
    ensures Ahead(Freed(s, objs[i]), objs[i := []], copies, gone) <==> Outlived(objs, copies, gone, objs[i])
  {
    var r, after := Freed(s, objs[i]), objs[i := []];
    assert ObjectOk(|s.bits|, objs[i]);
    forall j | 0 <= j < |after| ensures ObjectOk(|r.bits|, after[j]) {
      assert ObjectOk(|s.bits|, objs[j]);
    }
    FreedShape(s, objs[i]);
    forall k
      ensures KeyAhead(r, after, copies, gone, k) <==> (k in objs[i] ==> Then(objs, copies, gone, k) >= 1)
    {
      assert KeyAhead(s, objs, copies, gone, k);
      DeleteThen(objs, i, copies, gone, k);
    }
    if Outlived(objs, copies, gone, objs[i]) {
      forall e | 0 <= e < |s.bits| ensures LiveAhead(r, after, copies, gone, e) {
        DeleteLive(s, r, objs, i, copies, gone, e);
      }
    }
  }

  lemma AppendThen(objs: seq<Object>, copies: seq<Seg>, gone: seq<Seg>, segs: seq<Seg>, k: Seg)
    requires Distinct(segs)
    ensures Then(objs + [segs], copies, gone, k) == Then(objs, copies, gone, k) + (if k in segs then 1 else 0)
  {
    HoldersAppend(objs, segs, k);
    DistinctCount(segs, k);
  }

  /** If the switch commits, a copy made beside it leaves right books under the same condition. */
  lemma CopyAhead(s: Ledger, objs: seq<Object>, copies: seq<Seg>, gone: seq<Seg>, segs: seq<Seg>)
    requires Ahead(s, objs, copies, gone) && ObjectOk(|s.bits|, segs) && InRange(s, segs)
    ensures Ahead(ShareObject(Txn(s, EMPTY_DRAFT), segs).led, objs + [segs], copies, gone) <==>
      Outlived(objs, copies, gone, segs)
  {
    var r, after := ShareObject(Txn(s, EMPTY_DRAFT), segs).led, objs + [segs];
    CopyShape(s, segs);
    AppendOk(|s.bits|, objs, segs);
    forall k
      ensures KeyAhead(r, after, copies, gone, k) <==> (k in segs ==> Then(objs, copies, gone, k) >= 1)
    {
      assert KeyAhead(s, objs, copies, gone, k);
      AppendThen(objs, copies, gone, segs, k);
    }
    if Outlived(objs, copies, gone, segs) {
      forall k ensures k in Kept(after, copies, gone) <==> k in Kept(objs, copies, gone) {
        AppendThen(objs, copies, gone, segs, k);
        KeptIff(objs, copies, gone, k);
        KeptIff(after, copies, gone, k);
      }
      assert Kept(after, copies, gone) == Kept(objs, copies, gone);
      forall e | 0 <= e < |s.bits| ensures LiveAhead(r, after, copies, gone, e) {
        assert LiveAhead(s, objs, copies, gone, e);
      }
    }
  }

  // ---------- putting beside an open switch ----------

  /** The new segments are none that the switch is about to bring in, and the counters have room for them
      beside what it leaves. */
  ghost predicate PutsApart(n: nat, objs: seq<Object>, copies: seq<Seg>, gone: seq<Seg>, segs: seq<Seg>) {
    && (forall k :: k in segs ==> Then(objs, copies, gone, k) == 0)
    && forall e :: 0 <= e < n ==> Bytes(Kept(objs, copies, gone), e) + SegSum(segs, e) < U32
  }

  lemma RoseExactly(x: nat, y: nat, l: nat)
    requires Rose(x, y, l) && y < U32
    ensures x + l < U32 ==> y == x + l
  {
    if x + l < U32 {
      var q := (y - x - l) / U32;
      assert y - (x + l) == q * U32;
    }
  }

  lemma PutLive(s: Ledger, r: Ledger, objs: seq<Object>, copies: seq<Seg>, gone: seq<Seg>, segs: seq<Seg>, e: nat)
    requires Ahead(s, objs, copies, gone) && WellFormed(r) && |r.bits| == |s.bits| && e < |s.bits|
    requires Rose(s.live[e], r.live[e], SegSum(segs, e)) && (s.bits[e] ==> r.bits[e]) && (Touches(segs, e) ==> r.bits[e])
    requires Distinct(segs) && forall k :: k in segs ==> Then(objs, copies, gone, k) == 0
    ensures LiveAhead(r, objs + [segs], copies, gone, e) <==> Bytes(Kept(objs, copies, gone), e) + SegSum(segs, e) < U32
  {
    var kept, after := Kept(objs, copies, gone), Kept(objs + [segs], copies, gone);
    forall k ensures k in after <==> k in kept || k in segs
             ensures k in segs ==> k !in kept
    {
      AppendThen(objs, copies, gone, segs, k);
      KeptIff(objs, copies, gone, k);
      KeptIff(objs + [segs], copies, gone, k);
    }
    assert after == kept + set k | k in segs;
    BytesAddAll(kept, segs, e);
    assert LiveAhead(s, objs, copies, gone, e);
    RoseExactly(s.live[e], r.live[e], SegSum(segs, e));
    SegSumTouches(segs, e);
  }

  /** If the switch commits, new data in allocated extents leaves right books if and only if it is apart
      from the copies. */
  lemma PutAhead(s: Ledger, objs: seq<Object>, copies: seq<Seg>, gone: seq<Seg>, ids: seq<nat>, skipped: set<nat>,
                 ranges: seq<(nat, nat)>, segs: seq<Seg>)
    requires Ahead(s, objs, copies, gone) && MayTake(s, ids, skipped)
    requires var w := Writer(s, objs, ids, skipped, ranges); PutLegal(w, segs, []) && InAllocated(w.txn.led, segs)
    ensures InRange(s, segs)
    ensures Ahead(Stored(s, ids, skipped, ranges, segs), objs + [segs], copies, gone) <==>
      PutsApart(|s.bits|, objs, copies, gone, segs)
  {
    var r, after := Stored(s, ids, skipped, ranges, segs), objs + [segs];
    StoredShape(s, ids, skipped, ranges, segs);
    TakeAllAt(Isolate(s, skipped), ids);
    AppendOk(|s.bits|, objs, segs);
    forall k
      ensures KeyAhead(r, after, copies, gone, k) <==> (k in segs ==> Then(objs, copies, gone, k) == 0)
    {
      assert KeyAhead(s, objs, copies, gone, k);
      AppendThen(objs, copies, gone, segs, k);
    }
    if forall k :: k in segs ==> Then(objs, copies, gone, k) == 0 {
      forall e | 0 <= e < |s.bits|
        ensures LiveAhead(r, after, copies, gone, e) <==> Bytes(Kept(objs, copies, gone), e) + SegSum(segs, e) < U32
      {
        PutLive(s, r, objs, copies, gone, segs, e);
      }
    }
  }

  /** Pins and what they free never matter to a switch that commits. */
  lemma BitsAhead(s: Ledger, r: Ledger, objs: seq<Object>, copies: seq<Seg>, gone: seq<Seg>)
    requires Ahead(s, objs, copies, gone) && WellFormed(r) && |r.bits| == |s.bits|
    requires r.live == s.live && r.shared == s.shared
    requires forall e :: 0 <= e < |s.bits| && s.bits[e] && !r.bits[e] ==> s.live[e] == 0
    ensures Ahead(r, objs, copies, gone)
  {
    forall e | 0 <= e < |s.bits| ensures LiveAhead(r, objs, copies, gone, e) {
      assert LiveAhead(s, objs, copies, gone, e);
    }
    forall k ensures KeyAhead(r, objs, copies, gone, k) {
      assert KeyAhead(s, objs, copies, gone, k);
    }
  }

  // ---------- opening a switch that will commit ----------

  /** Each planned segment is held, no copy is yet, and the copies lie in allocated extents. A copy that is
      itself a planned segment takes its own place. */
  ghost predicate CleanOpen(s: Ledger, objs: seq<Object>, copies: seq<Seg>, gone: seq<Seg>) {
    && (forall k :: k in gone && k !in copies ==> Holders(objs, k) >= 1)
    && (forall k :: k in copies && k !in gone ==> Holders(objs, k) == 0 && k.ext < |s.bits| && s.bits[k.ext])
    && forall k :: k in copies && k in gone ==> Holders(objs, k) <= 1
  }

  /** The counters have room for the copies beside what is held. */
  ghost predicate HasRoom(n: nat, objs: seq<Object>, copies: seq<Seg>) {
    forall e :: 0 <= e < n ==> Bytes(Keys(objs), e) + SegSum(copies, e) < U32
  }

  /** The ledger of a switch, seen from the one in which its copies have been added. */
  lemma OpenShape(s: Ledger, alloc: seq<(nat, nat)>, copies: seq<Seg>, gone: seq<Seg>) returns (full: Ledger)
    requires WellFormed(s) && InRange(s, copies) && Below(Expand(alloc), |s.bits|)
    requires ObjectOk(|s.bits|, gone) && InRange(s, gone)
    ensures WellFormed(full) && |full.bits| == |s.bits| && full == s.(live := full.live, refcounts := full.refcounts)
    ensures forall e :: 0 <= e < |s.bits| ==> Rose(s.live[e], full.live[e], SegSum(copies, e))
    ensures var r := Committed(s, alloc, copies, gone);
      && r.pins == s.pins
      && (forall e :: 0 <= e < |s.bits| ==> FreedAt(full, r, TakenOff(s.shared, full.live[e], gone, e), e))
      && forall k :: Entry(r.shared, k) == if k in gone then Released(Entry(s.shared, k)) else Entry(s.shared, k)
  {
    var begin := Txn(s, EMPTY_DRAFT.(alloc := alloc));
    AddedShape(begin, copies);
    AddedClears(begin, copies);
    var t := AddObject(begin, copies);
    full := t.led;
    SeenInRange(s, gone, []);
    MovedShape(s, alloc, copies, gone);
    var mid, u := ReleaseSegs(t, gone), Moved(s, alloc, copies, gone);
    RefDownFrame(mid, Seen(gone, []));
    SettleAt(u.led, u.draft.cleared);
    var r := Committed(s, alloc, copies, gone);
    forall e | 0 <= e < |s.bits| ensures FreedAt(full, r, TakenOff(s.shared, full.live[e], gone, e), e) {
      ReleaseTakes(t, gone, e);
    }
    forall k ensures Entry(r.shared, k) ==
      if k in gone then Released(Entry(s.shared, k)) else Entry(s.shared, k)
    {
      ReleaseEntry(t, gone, k);
    }
  }

  /** A neighbour of the one planned segment, alone with it in the extent: its delete frees the extent. */
  lemma NeighbourFreed(s: Ledger, alloc: seq<(nat, nat)>, copies: seq<Seg>, k: Seg, m: Seg)
    requires Opens(s, alloc, copies, k) && m.ext == k.ext && m != k && m.len > 0
    requires Entry(s.shared, k) == 0 && Entry(s.shared, m) == 0 && s.live[k.ext] == k.len + m.len
    ensures InRange(WindowLedger(s, alloc, copies, k), [m])
    ensures var r := Freed(WindowLedger(s, alloc, copies, k), [m]);
      !r.bits[k.ext] && k.ext !in WindowDraft(s, alloc, copies, k).cleared
  {
    OpenOne(s, alloc, copies, k);
    var full := OpenShape(s, alloc, copies, [k]);
    FreedByEntry(WindowLedger(s, alloc, copies, k), m);
  }

  lemma AddedClears(t: Txn, segs: seq<Seg>)
    requires WellFormed(t.led) && InRange(t.led, segs) && t.draft.inflight == []
    ensures var r := AddObject(t, segs);
      && r.draft.cleared == t.draft.cleared
      && r.led == t.led.(live := r.led.live, refcounts := r.led.refcounts)
  {
    assert multiset(t.draft.inflight) == multiset{};
    SeenInRange(t.led, segs, []);
    AddSegsFrame(t, multiset{}, segs);
    RefUpFrame(AddSegs(t, multiset{}, segs), Seen(segs, []));
  }

  lemma OpenKey(s: Ledger, r: Ledger, objs: seq<Object>, copies: seq<Seg>, gone: seq<Seg>, k: Seg)
    requires WellFormed(s) && KeyAccounts(s, objs, k) && Distinct(copies) && Distinct(gone)
    requires Entry(r.shared, k) == if k in gone then Released(Entry(s.shared, k)) else Entry(s.shared, k)
    ensures KeyAhead(r, objs, copies, gone, k) <==>
      && (k in gone && k !in copies ==> Holders(objs, k) >= 1)
      && (k in copies && k !in gone ==> Holders(objs, k) == 0)
      && (k in copies && k in gone ==> Holders(objs, k) <= 1)
  {
    DistinctCount(copies, k);
    DistinctCount(gone, k);
  }

  /** What the switch leaves and what it takes off are what is held and what it adds. */
  lemma OpenSums(s: Ledger, objs: seq<Object>, copies: seq<Seg>, gone: seq<Seg>, e: nat)
    requires SpaceAccounts(s, objs, []) && Distinct(copies) && Distinct(gone) && CleanOpen(s, objs, copies, gone)
    ensures Bytes(Kept(objs, copies, gone), e) + Bytes(Once(s.shared, gone), e) == Bytes(Keys(objs), e) + SegSum(copies, e)
  {
    var kept, once, held, named := Kept(objs, copies, gone), Once(s.shared, gone), Keys(objs), Named(copies);
    forall k
      ensures (k in kept || k in once <==> k in held || k in named) && (k in kept && k in once <==> k in held && k in named)
    {
      assert KeyAccounts(s, objs, k);
      DistinctCount(copies, k);
      DistinctCount(gone, k);
      HeldIffKey(objs, k);
      KeptIff(objs, copies, gone, k);
    }
    BytesAlike(kept, once, held, named, e);
    BytesNamed(copies, e);
  }

  lemma OpenLive(s: Ledger, full: Ledger, r: Ledger, objs: seq<Object>, copies: seq<Seg>, gone: seq<Seg>, e: nat)
    requires SpaceAccounts(s, objs, []) && Distinct(copies) && Distinct(gone) && CleanOpen(s, objs, copies, gone)
    requires WellFormed(full) && WellFormed(r) && |full.bits| == |r.bits| == |s.bits| && e < |s.bits|
    requires full.bits == s.bits && Rose(s.live[e], full.live[e], SegSum(copies, e))
    requires FreedAt(full, r, TakenOff(s.shared, full.live[e], gone, e), e)
    requires Bytes(Keys(objs), e) + SegSum(copies, e) < U32
    ensures LiveAhead(r, objs, copies, gone, e)
  {
    assert LiveAccounts(s, objs, [], e);
    RoseExactly(s.live[e], full.live[e], SegSum(copies, e));
    OpenSums(s, objs, copies, gone, e);
    TakenIsOnce(s.shared, full.live[e], gone, e);
    SegSumTouches(copies, e);
    if r.live[e] > 0 && s.live[e] == 0 {
      OpenOnCopies(s, objs, copies, gone, e);
    }
  }

  /** Where nothing was held before, what the switch leaves are copies. */
  lemma OpenOnCopies(s: Ledger, objs: seq<Object>, copies: seq<Seg>, gone: seq<Seg>, e: nat)
    requires SpaceAccounts(s, objs, []) && Distinct(copies) && Distinct(gone) && CleanOpen(s, objs, copies, gone)
    requires e < |s.bits| && s.live[e] == 0 && Bytes(Kept(objs, copies, gone), e) > 0
    ensures s.bits[e]
  {
    assert LiveAccounts(s, objs, [], e);
    var kept := Kept(objs, copies, gone);
    NoKeyNoBytes(kept, e);
    var k :| k in kept && k.ext == e;
    KeptIff(objs, copies, gone, k);
    HeldIffKey(objs, k);
    if Holders(objs, k) > 0 {
      KeyOk(|s.bits|, objs, k);
      BytesRemove(Keys(objs), k, e);
    }
    DistinctCount(copies, k);
    DistinctCount(gone, k);
  }

  lemma OpenOnFree(r: Ledger, objs: seq<Object>, copies: seq<Seg>, gone: seq<Seg>, k: Seg)
    requires Ahead(r, objs, copies, gone) && k in copies && k !in gone && k.ext < |r.bits| && k.len > 0
    ensures r.bits[k.ext]
  {
    CountPositive(copies, k);
    CountPositive(gone, k);
    KeptIff(objs, copies, gone, k);
    BytesRemove(Kept(objs, copies, gone), k, k.ext);
    assert LiveAhead(r, objs, copies, gone, k.ext);
  }

  /** A switch that will commit is opened with right books if and only if it is clean. */
  lemma OpenAhead(s: Ledger, objs: seq<Object>, alloc: seq<(nat, nat)>, copies: seq<Seg>, gone: seq<Seg>)
    requires SpaceAccounts(s, objs, []) && Below(Expand(alloc), |s.bits|) && HasRoom(|s.bits|, objs, copies)
    requires ObjectOk(|s.bits|, copies) && ObjectOk(|s.bits|, gone) && InRange(s, copies) && InRange(s, gone)
    ensures Ahead(Committed(s, alloc, copies, gone), objs, copies, gone) <==> CleanOpen(s, objs, copies, gone)
  {
    var r := Committed(s, alloc, copies, gone);
    var full := OpenShape(s, alloc, copies, gone);
    forall k ensures KeyAhead(r, objs, copies, gone, k) <==>
      && (k in gone && k !in copies ==> Holders(objs, k) >= 1)
      && (k in copies && k !in gone ==> Holders(objs, k) == 0)
      && (k in copies && k in gone ==> Holders(objs, k) <= 1)
    {
      assert KeyAccounts(s, objs, k);
      OpenKey(s, r, objs, copies, gone, k);
    }
    if CleanOpen(s, objs, copies, gone) {
      forall e | 0 <= e < |s.bits| ensures LiveAhead(r, objs, copies, gone, e) {
        OpenLive(s, full, r, objs, copies, gone, e);
      }
    }
    if Ahead(r, objs, copies, gone) {
      forall k | k in copies && k !in gone ensures s.bits[k.ext] {
        assert FreedAt(full, r, TakenOff(s.shared, full.live[k.ext], gone, k.ext), k.ext);
        OpenOnFree(r, objs, copies, gone, k);
      }
    }
  }

  lemma ReplacesExchanged(n: nat, obj: Object, copies: Object, gone: Object, after: Object)
    requires ObjectOk(n, obj) && ObjectOk(n, copies) && ObjectOk(n, after) && Replaces(obj, copies, gone, after)
    requires forall k :: k in copies ==> k !in obj
    ensures ObjectOk(n, gone) && Exchanged(obj, copies, gone, after)
  {
    forall j | 0 <= j < |gone| ensures gone[j].len > 0 && gone[j].ext < n {
      assert gone[j] in obj;
    }
    forall k ensures Count(after, k) == Count(obj, k) + Count(copies, k) - Count(gone, k) {
      DistinctCount(obj, k);
      DistinctCount(copies, k);
      DistinctCount(gone, k);
      DistinctCount(after, k);
    }
  }

  lemma SwitchIsClean(s: Ledger, objs: seq<Object>, i: nat, copies: Object, gone: Object, after: Object)
    requires SpaceAccounts(s, objs, []) && SwitchOk(s, objs, i, copies, gone, after)
    requires InRange(s, copies) && InAllocated(s, copies)
    ensures CleanOpen(s, objs, copies, gone) && HasRoom(|s.bits|, objs, copies)
    ensures forall k :: k in copies ==> k !in objs[i]
  {
    assert objs[i] in objs;
    forall k | k in gone || k in copies
      ensures k in gone ==> Holders(objs, k) >= 1
      ensures k in copies ==> Holders(objs, k) == 0 && k !in Keys(objs)
    {
      HeldIffKey(objs, k);
    }
    PutKeys(objs, copies);
    forall e | 0 <= e < |s.bits| ensures Bytes(Keys(objs), e) + SegSum(copies, e) < U32 {
      BytesAddAll(Keys(objs), copies, e);
      assert Bytes(Keys(objs + [copies]), e) + SumFor([], e) < U32;
    }
  }

  /** A switch that commits at once keeps the accounting. */
  lemma SwitchAccounts(s: Ledger, objs: seq<Object>, i: nat, alloc: seq<(nat, nat)>,
                       copies: Object, gone: Object, after: Object)
    requires SpaceAccounts(s, objs, []) && SwitchOk(s, objs, i, copies, gone, after)
    requires InRange(s, copies) && InRange(s, gone) && Below(Expand(alloc), |s.bits|)
    requires InAllocated(s, copies)
    ensures SpaceAccounts(Committed(s, alloc, copies, gone), objs[i := after], [])
  {
    assert ObjectOk(|s.bits|, objs[i]);
    SwitchIsClean(s, objs, i, copies, gone, after);
    ReplacesExchanged(|s.bits|, objs[i], copies, gone, after);
    OpenAhead(s, objs, alloc, copies, gone);
    var next := objs[i := after];
    forall j | 0 <= j < |next| ensures ObjectOk(|s.bits|, next[j]) {
      assert ObjectOk(|s.bits|, objs[j]);
    }
    CommitExactly(Committed(s, alloc, copies, gone), objs, i, copies, gone, after);
  }

  // ---------- both outcomes ----------

  /** The segments of the plan that only the switched object holds. */
  ghost function Unshared(objs: seq<Object>, gone: seq<Seg>): set<Seg> {
    set k | k in gone && Holders(objs, k) == 1
  }

  /** The planned segments are held and the copies are not yet, and the counters have room for them. */
  ghost predicate Whole(n: nat, objs: seq<Object>, copies: seq<Seg>, gone: seq<Seg>) {
    && ObjectOk(n, copies) && Distinct(gone) && HasRoom(n, objs, copies)
    && (forall k :: k in gone ==> k in Keys(objs)) && forall k :: k in copies ==> k !in Keys(objs)
  }

  /** What a commit needs beyond what a failure needs: what the switch has taken from each extent are just
      the segments that nobody but its object holds; nobody has shared one whose table entry it did not
      count down; and no extent with live bytes is free. */
  ghost predicate CleanCommit(s: Ledger, d: Staged, objs: seq<Object>, gone: seq<Seg>)
    requires WellFormed(s)
  {
    && (forall e :: 0 <= e < |s.bits| ==> SumFor(d.liveDec, e) == Bytes(Unshared(objs, gone), e))
    && (forall k :: k in gone && Count(d.sharedDec, k) == 0 ==> k !in s.shared)
    && forall e :: 0 <= e < |s.bits| && s.live[e] > 0 ==> s.bits[e]
  }

  lemma CommitSums(n: nat, objs: seq<Object>, copies: seq<Seg>, gone: seq<Seg>, e: nat)
    requires Whole(n, objs, copies, gone)
    ensures Bytes(Kept(objs, copies, gone), e) + Bytes(Unshared(objs, gone), e) == Bytes(Keys(objs), e) + SegSum(copies, e)
    ensures Bytes(Unshared(objs, gone), e) <= Bytes(Keys(objs), e)
  {
    var kept, sole, held, named := Kept(objs, copies, gone), Unshared(objs, gone), Keys(objs), Named(copies);
    forall k
      ensures (k in kept || k in sole <==> k in held || k in named) && (k in kept && k in sole <==> k in held && k in named)
      ensures k in sole ==> k in held
    {
      DistinctCount(copies, k);
      DistinctCount(gone, k);
      HeldIffKey(objs, k);
      KeptIff(objs, copies, gone, k);
    }
    BytesAlike(kept, sole, held, named, e);
    BytesNamed(copies, e);
    assert held == (held - sole) + sole;
    BytesUnion(held - sole, sole, e);
  }

  lemma CommitExact(live: nat, dec: nat, inc: nat, b: nat, sole: nat, after: nat)
    requires Wraps(live + (dec - inc), b) && live < U32 && dec < U32 && sole <= b < U32
    requires after + sole == b + inc && after < U32
    ensures live == after <==> dec == sole
  {
    var q := (live + (dec - inc)) / U32;
    assert live + (dec - inc) == q * U32 + b;
    assert live - after == q * U32 + sole - dec;
    if live == after {
      assert dec - sole == q * U32;
    }
  }

  lemma CommitLive(s: Ledger, d: Staged, objs: seq<Object>, copies: seq<Seg>, gone: seq<Seg>, e: nat)
    requires Balanced(s, d, objs, []) && Whole(|s.bits|, objs, copies, gone) && e < |s.bits|
    requires SumFor(d.liveInc, e) == SegSum(copies, e) && SumFor(d.liveDec, e) < U32
    ensures s.live[e] == Bytes(Kept(objs, copies, gone), e) <==> SumFor(d.liveDec, e) == Bytes(Unshared(objs, gone), e)
  {
    CommitSums(|s.bits|, objs, copies, gone, e);
    BalancedAt(s, d, objs, [], e);
    var b := Bytes(Keys(objs), e) + SumFor([], e);
    CommitExact(s.live[e], SumFor(d.liveDec, e), SumFor(d.liveInc, e), b,
                Bytes(Unshared(objs, gone), e), Bytes(Kept(objs, copies, gone), e));
  }

  lemma CommitKey(s: Ledger, d: Staged, objs: seq<Object>, copies: seq<Seg>, gone: seq<Seg>, k: Seg)
    requires Balanced(s, d, objs, []) && Whole(|s.bits|, objs, copies, gone)
    requires d.sharedInc == [] && Count(d.sharedDec, k) <= Count(gone, k)
    ensures KeyAhead(s, objs, copies, gone, k) <==> (k in gone && Count(d.sharedDec, k) == 0 ==> k !in s.shared)
  {
    assert ShareBack(s, d, objs, k);
    HeldIffKey(objs, k);
    DistinctCount(gone, k);
    DistinctCount(copies, k);
  }

  /** Where an open switch could be undone, its commit is right as well if and only if it is clean. */
  lemma CommitIff(s: Ledger, d: Staged, alloc: seq<(nat, nat)>, objs: seq<Object>, copies: seq<Seg>, gone: seq<Seg>)
    requires Balanced(s, d, objs, []) && SwitchDraft(d, alloc, copies, gone, |s.bits|)
    requires Whole(|s.bits|, objs, copies, gone)
    ensures Ahead(s, objs, copies, gone) <==> CleanCommit(s, d, objs, gone)
  {
    forall e | 0 <= e < |s.bits|
      ensures s.live[e] == Bytes(Kept(objs, copies, gone), e) <==> SumFor(d.liveDec, e) == Bytes(Unshared(objs, gone), e)
    {
      CommitLive(s, d, objs, copies, gone, e);
    }
    forall k ensures KeyAhead(s, objs, copies, gone, k) <==> (k in gone && Count(d.sharedDec, k) == 0 ==> k !in s.shared) {
      CommitKey(s, d, objs, copies, gone, k);
    }
    if Ahead(s, objs, copies, gone) {
      forall e | 0 <= e < |s.bits|
        ensures s.live[e] == Bytes(Kept(objs, copies, gone), e) && (s.live[e] > 0 ==> s.bits[e])
      {
        assert LiveAhead(s, objs, copies, gone, e);
      }
      forall k | k in gone && Count(d.sharedDec, k) == 0 ensures k !in s.shared {
        assert KeyAhead(s, objs, copies, gone, k);
      }
    }
  }

  // ---------- quiet transactions ----------

  lemma QuietTaken(s: Ledger, d: Staged, objs: seq<Object>, i: nat, copies: seq<Seg>, gone: seq<Seg>, e: nat)
    requires Balanced(s, d, objs, []) && Ahead(s, objs, copies, gone) && d.sharedInc == [] && e < |s.bits|
    requires i < |objs| && (forall k :: k in objs[i] ==> k !in gone) && forall k :: Count(d.sharedDec, k) <= Count(gone, k)
    ensures TakenOff(s.shared, s.live[e], objs[i], e) == Bytes(Last(objs, i), e)
  {
    assert ObjectOk(|s.bits|, objs[i]);
    var once, kept := Once(s.shared, objs[i]), Kept(objs, copies, gone);
    forall k ensures k in once <==> k in Last(objs, i)
             ensures k in once ==> k in kept
    {
      if k in objs[i] {
        assert ShareBack(s, d, objs, k) && k in Keys(objs);
        HeldIffKey(objs, k);
        CountPositive(gone, k);
        KeptIff(objs, copies, gone, k);
      }
    }
    assert once == Last(objs, i) && kept == (kept - once) + once && LiveAhead(s, objs, copies, gone, e);
    BytesUnion(kept - once, once, e);
    TakenIsOnce(s.shared, s.live[e], objs[i], e);
  }

  /** A delete of an object without planned segments, which empties no extent from which the switch has
      taken bytes, is clean for both outcomes. */
  lemma QuietDeleteIsClean(s: Ledger, d: Staged, alloc: seq<(nat, nat)>, objs: seq<Object>, i: nat, copies: seq<Seg>, gone: seq<Seg>)
    requires Balanced(s, d, objs, []) && Ahead(s, objs, copies, gone) && SwitchDraft(d, alloc, copies, gone, |s.bits|)
    requires Whole(|s.bits|, objs, copies, gone)
    requires i < |objs| && InRange(s, objs[i]) && forall k :: k in objs[i] ==> k !in gone
    requires forall e :: 0 <= e < |s.bits| && s.bits[e] && !Freed(s, objs[i]).bits[e] ==> SumFor(d.liveDec, e) == 0
    ensures CleanDelete(s, d, objs, i) && Outlived(objs, copies, gone, objs[i])
  {
    assert ObjectOk(|s.bits|, objs[i]);
    FreedShape(s, objs[i]);
    CommitIff(s, d, alloc, objs, copies, gone);
    forall k | k in objs[i] ensures Count(d.sharedDec, k) == 0 && Then(objs, copies, gone, k) >= 1 {
      CountPositive(gone, k);
      assert k in Keys(objs);
      HeldIffKey(objs, k);
    }
    forall e | 0 <= e < |s.bits| ensures TakenOff(s.shared, s.live[e], objs[i], e) == Bytes(Last(objs, i), e) {
      QuietTaken(s, d, objs, i, copies, gone, e);
    }
    forall e | 0 <= e < |s.bits| && s.bits[e] && s.pins[e] == 0 && 0 < s.live[e] == Bytes(Last(objs, i), e)
      ensures Bytes(Keys(objs[i := []]), e) == 0
    {
      CommitSums(|s.bits|, objs, copies, gone, e);
      assert LiveAhead(s, objs, copies, gone, e);
      LastAndRest(objs, i, e);
    }
  }

  /** Unpinning that frees no extent from which the switch has taken bytes spares what its undo needs. */
  lemma QuietBits(s: Ledger, r: Ledger, d: Staged, alloc: seq<(nat, nat)>, objs: seq<Object>, copies: seq<Seg>, gone: seq<Seg>)
    requires Balanced(s, d, objs, []) && Ahead(s, objs, copies, gone) && SwitchDraft(d, alloc, copies, gone, |s.bits|)
    requires Whole(|s.bits|, objs, copies, gone) && |r.bits| == |s.bits|
    requires forall e :: 0 <= e < |s.bits| && s.bits[e] && !r.bits[e] ==> s.live[e] == 0 && SumFor(d.liveDec, e) == 0
    ensures Spares(s, r, d, objs)
  {
    CommitIff(s, d, alloc, objs, copies, gone);
    forall e | 0 <= e < |s.bits| && s.bits[e] && !r.bits[e] ensures Bytes(Keys(objs), e) == 0 {
      CommitSums(|s.bits|, objs, copies, gone, e);
      assert LiveAhead(s, objs, copies, gone, e);
    }
  }
}
