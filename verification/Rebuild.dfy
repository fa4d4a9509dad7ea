/** The startup scan: what it recomputes from the live objects agrees with what the running
    allocator kept, and the two behave the same from then on. */
module Rebuilds {
  import opened Ledgers
  import opened Rollbacks
  import opened RollbackLimits
  import opened Holdings
  import opened Runs

  /** The derived state of a set of live objects, extent by extent and key by key. */
  ghost function Rebuilt(s: Ledger, objs: seq<Object>): (r: Ledger)
    requires WellFormed(s)
    ensures WellFormed(r)
  {
    s.(live := seq(|s.bits|, e requires 0 <= e < |s.bits| => Bytes(Keys(objs), e) % U32),
       refcounts := seq(|s.bits|, e requires 0 <= e < |s.bits| => Touching(objs, e) % U32),
       phase := seq(|s.bits|, _ => Sealed),
       shared := map k | k in Keys(objs) && Holders(objs, k) > 1 :: Holders(objs, k))
  }

  /** Ledgers that differ at most in phase and in share entries that stand for one holder. */
  ghost predicate Twins(a: Ledger, b: Ledger) {
    && WellFormed(a) && WellFormed(b)
    && b == a.(phase := b.phase, shared := b.shared)
    && forall k :: Holding(Entry(a.shared, k)) == Holding(Entry(b.shared, k))
  }

  /** In every state that a run reaches, rebuilding changes no live bytes and no reference count,
      and only drops share entries of one holder. */
  lemma RebuildAgrees(st: Store)
    requires StoreOk(st)
    ensures Twins(st.led, Rebuilt(st.led, st.objs))
    ensures forall k :: KeepsEntry(st.led.shared, Rebuilt(st.led, st.objs).shared, k)
    ensures forall e :: 0 <= e < |st.led.bits| ==> Rebuilt(st.led, st.objs).phase[e] == Sealed
  {
    var s, r := st.led, Rebuilt(st.led, st.objs);
    forall e | 0 <= e < |s.bits| ensures r.live[e] == s.live[e] && r.refcounts[e] == s.refcounts[e] {
      assert LiveAccounts(s, st.objs, [], e) && RefAccounts(s, st.objs, e);
    }
    assert r.live == s.live && r.refcounts == s.refcounts;
    forall k
      ensures KeepsEntry(s.shared, r.shared, k) && Holding(Entry(s.shared, k)) == Holding(Entry(r.shared, k))
    {
      assert KeyAccounts(s, st.objs, k);
      HeldIffKey(st.objs, k);
    }
  }

  // ---------- twins behave alike ----------

  /** The same transaction run on twins: the drafts differ only in the share-table undo list. */
  ghost predicate TwinTxns(t: Txn, u: Txn) {
    && Twins(t.led, u.led)
    && u.draft == t.draft.(sharedDec := u.draft.sharedDec)
  }

  lemma {:induction false} TwinAddSegs(t: Txn, u: Txn, pre: multiset<(nat, nat)>, segs: seq<Seg>)
    requires TwinTxns(t, u) && InRange(t.led, segs)
    ensures TwinTxns(AddSegs(t, pre, segs), AddSegs(u, pre, segs))
    decreases |segs|
  {
    if segs != [] {
      var key := (segs[0].ext, segs[0].len);
      if key in pre {
        TwinAddSegs(t, u, pre - multiset{key}, segs[1..]);
      } else {
        TwinAddSegs(GainLive(t, key), GainLive(u, key), pre, segs[1..]);
      }
    }
  }

  lemma {:induction false} TwinRefUp(t: Txn, u: Txn, ids: seq<nat>)
    requires TwinTxns(t, u) && Below(ids, |t.led.bits|)
    ensures TwinTxns(RefUp(t, ids), RefUp(u, ids))
    decreases |ids|
  {
    if ids != [] {
      TwinRefUp(RefUpOne(t, ids[0]), RefUpOne(u, ids[0]), ids[1..]);
    }
  }

  lemma {:induction false} TwinRefDown(t: Txn, u: Txn, ids: seq<nat>)
    requires TwinTxns(t, u) && Below(ids, |t.led.bits|)
    ensures TwinTxns(RefDown(t, ids), RefDown(u, ids))
    decreases |ids|
  {
    if ids != [] {
      var x := ids[0];
      if t.led.refcounts[x] == 0 {
        TwinRefDown(t, u, ids[1..]);
      } else {
        TwinRefDown(Txn(t.led.(refcounts := t.led.refcounts[x := t.led.refcounts[x] - 1]),
                        t.draft.(refcountDec := t.draft.refcountDec + [x])),
                    Txn(u.led.(refcounts := u.led.refcounts[x := u.led.refcounts[x] - 1]),
                        u.draft.(refcountDec := u.draft.refcountDec + [x])), ids[1..]);
      }
    }
  }

  lemma {:induction false} TwinShareSegs(t: Txn, u: Txn, segs: seq<Seg>)
    requires TwinTxns(t, u)
    ensures TwinTxns(ShareSegs(t, segs), ShareSegs(u, segs))
    decreases |segs|
  {
    if segs != [] {
      var x := segs[0];
      var n := Holding(Entry(t.led.shared, x));
      assert n == Holding(Entry(u.led.shared, x));
      var t' := Txn(t.led.(shared := t.led.shared[x := n + 1]), t.draft.(sharedInc := t.draft.sharedInc + [x]));
      var u' := Txn(u.led.(shared := u.led.shared[x := n + 1]), u.draft.(sharedInc := u.draft.sharedInc + [x]));
      forall k ensures Holding(Entry(t'.led.shared, k)) == Holding(Entry(u'.led.shared, k)) {
        assert Holding(Entry(t.led.shared, k)) == Holding(Entry(u.led.shared, k));
      }
      TwinShareSegs(t', u', segs[1..]);
    }
  }

  lemma TwinReleaseSeg(t: Txn, u: Txn, x: Seg)
    requires TwinTxns(t, u) && x.ext < |t.led.bits|
    ensures TwinTxns(ReleaseSeg(t, x), ReleaseSeg(u, x))
  {
    assert Holding(Entry(t.led.shared, x)) == Holding(Entry(u.led.shared, x));
    forall k ensures Holding(Entry(ReleaseSeg(t, x).led.shared, k)) == Holding(Entry(ReleaseSeg(u, x).led.shared, k)) {
      assert Holding(Entry(t.led.shared, k)) == Holding(Entry(u.led.shared, k));
    }
  }

  lemma {:induction false} TwinReleaseSegs(t: Txn, u: Txn, segs: seq<Seg>)
    requires TwinTxns(t, u) && InRange(t.led, segs)
    ensures TwinTxns(ReleaseSegs(t, segs), ReleaseSegs(u, segs))
    decreases |segs|
  {
    if segs != [] {
      TwinReleaseSeg(t, u, segs[0]);
      TwinReleaseSegs(ReleaseSeg(t, segs[0]), ReleaseSeg(u, segs[0]), segs[1..]);
    }
  }

  lemma {:induction false} TwinTakeAll(a: Ledger, b: Ledger, ids: seq<nat>)
    requires Twins(a, b) && Below(ids, |a.bits|)
    ensures Twins(TakeAll(a, ids), TakeAll(b, ids))
    decreases |ids|
  {
    if ids != [] {
      var e := ids[0];
      TwinTakeAll(a.(bits := a.bits[e := true], refcounts := a.refcounts[e := 0],
                     generations := a.generations[e := a.generations[e] + 1], totalAlloc := a.totalAlloc + 1),
                  b.(bits := b.bits[e := true], refcounts := b.refcounts[e := 0],
                     generations := b.generations[e := b.generations[e] + 1], totalAlloc := b.totalAlloc + 1),
                  ids[1..]);
    }
  }

  lemma {:induction false} TwinGiveBackAll(a: Ledger, b: Ledger, ids: seq<nat>)
    requires Twins(a, b) && Below(ids, |a.bits|)
    ensures Twins(GiveBackAll(a, ids), GiveBackAll(b, ids))
    decreases |ids|
  {
    if ids != [] {
      var e := ids[0];
      TwinGiveBackAll(a.(bits := a.bits[e := false], refcounts := a.refcounts[e := 0], live := a.live[e := 0],
                         phase := a.phase[e := Free], totalAlloc := a.totalAlloc - 1),
                      b.(bits := b.bits[e := false], refcounts := b.refcounts[e := 0], live := b.live[e := 0],
                         phase := b.phase[e := Free], totalAlloc := b.totalAlloc - 1),
                      ids[1..]);
    }
  }

  lemma TwinCall(t: Txn, u: Txn, c: Call)
    requires TwinTxns(t, u) && Legal(t, c)
    ensures Legal(u, c) && TwinTxns(Do(t, c), Do(u, c))
  {
    match c
    case CallAllocate(ids, skipped, ranges) =>
      TwinTakeAll(Isolate(t.led, skipped), Isolate(u.led, skipped), ids);
    case CallNoSpace(ids, skipped) =>
      TwinTakeAll(Isolate(t.led, skipped), Isolate(u.led, skipped), ids);
      TwinGiveBackAll(TakeAll(Isolate(t.led, skipped), ids), TakeAll(Isolate(u.led, skipped), ids), ids);
    case CallNote(seg) =>
    case CallAdd(segs) =>
      SeenInRange(t.led, segs, []);
      TwinAddSegs(t, u, multiset(t.draft.inflight), segs);
      TwinRefUp(AddSegs(t, multiset(t.draft.inflight), segs), AddSegs(u, multiset(t.draft.inflight), segs),
                Seen(segs, []));
    case CallShare(segs) =>
      SeenInRange(t.led, segs, []);
      TwinShareSegs(t, u, segs);
      TwinRefUp(ShareSegs(t, segs), ShareSegs(u, segs), Seen(segs, []));
    case CallRelease(segs) =>
      SeenInRange(t.led, segs, []);
      TwinReleaseSegs(t, u, segs);
      TwinRefDown(ReleaseSegs(t, segs), ReleaseSegs(u, segs), Seen(segs, []));
  }

  lemma {:induction false} TwinCalls(t: Txn, u: Txn, calls: seq<Call>)
    requires TwinTxns(t, u) && LegalAll(t, calls)
    ensures LegalAll(u, calls) && TwinTxns(DoAll(t, calls), DoAll(u, calls))
    decreases |calls|
  {
    if calls != [] {
      TwinCall(t, u, calls[0]);
      TwinCalls(Do(t, calls[0]), Do(u, calls[0]), calls[1..]);
    }
  }

  lemma {:induction false} TwinSettle(a: Ledger, b: Ledger, cleared: seq<nat>)
    requires Twins(a, b) && Below(cleared, |a.bits|)
    ensures Twins(Settle(a, cleared), Settle(b, cleared))
    decreases |cleared|
  {
    if cleared != [] {
      TwinSettle(SettleOne(a, cleared[0]), SettleOne(b, cleared[0]), cleared[1..]);
    }
  }

  /** Any transaction after a restart, on the rebuilt ledger, is legal exactly as before, writes the
      same log record, frees the same extents, and leaves twins again. */
  lemma RebuiltBehavesTheSame(st: Store, calls: seq<Call>)
    requires StoreOk(st) && LegalAll(Txn(st.led, EMPTY_DRAFT), calls)
    ensures var t := DoAll(Txn(st.led, EMPTY_DRAFT), calls);
      var begin := Txn(Rebuilt(st.led, st.objs), EMPTY_DRAFT);
      && LegalAll(begin, calls)
      && var u := DoAll(begin, calls);
         && RecordOf(u.draft) == RecordOf(t.draft)
         && u.draft.cleared == t.draft.cleared && |u.led.bits| == |t.led.bits|
         && Below(t.draft.cleared, |t.led.bits|)
         && Twins(Settle(t.led, t.draft.cleared), Settle(u.led, u.draft.cleared))
  {
    RebuildAgrees(st);
    var begin := Txn(Rebuilt(st.led, st.objs), EMPTY_DRAFT);
    TwinCalls(Txn(st.led, EMPTY_DRAFT), begin, calls);
    CallsTracked(st, calls);
    var t, u := DoAll(Txn(st.led, EMPTY_DRAFT), calls), DoAll(begin, calls);
    TwinSettle(t.led, u.led, t.draft.cleared);
  }

  // ---------- twins over whole runs ----------

  /** Stores with the same objects, both accounted for, whose ledgers differ at most in phase and in
      the share table. */
  ghost predicate TwinStores(a: Store, b: Store) {
    && StoreOk(a) && StoreOk(b) && a.objs == b.objs
    && b.led == a.led.(phase := b.led.phase, shared := b.led.shared)
  }

  /** The accounting fixes the share table but for entries of one holder. */
  lemma StoresAreTwins(a: Store, b: Store)
    requires TwinStores(a, b)
    ensures Twins(a.led, b.led)
  {
    forall k ensures Holding(Entry(a.led.shared, k)) == Holding(Entry(b.led.shared, k)) {
      assert KeyAccounts(a.led, a.objs, k) && KeyAccounts(b.led, b.objs, k);
    }
  }

  lemma RebuiltIsTwin(st: Store)
    requires StoreOk(st)
    ensures TwinStores(st, st.(led := Rebuilt(st.led, st.objs)))
  {
    var s, r := st.led, Rebuilt(st.led, st.objs);
    RebuildAgrees(st);
    forall e | 0 <= e < |s.bits| ensures LiveAccounts(r, st.objs, [], e) && RefAccounts(r, st.objs, e) {
      assert LiveAccounts(s, st.objs, [], e) && RefAccounts(s, st.objs, e);
    }
    forall k ensures KeyAccounts(r, st.objs, k) {
      HeldIffKey(st.objs, k);
    }
  }

  ghost predicate TwinWorlds(w: World, x: World) {
    TwinTxns(w.txn, x.txn) && w.objs == x.objs && w.put == x.put
  }

  lemma TwinAct(w: World, x: World, a: Act)
    requires TwinWorlds(w, x) && WorldAccounts(w) && ActLegal(w, a)
    ensures ActLegal(x, a) && ObjectsOk(|x.txn.led.bits|, x.objs) && TwinWorlds(Perform(w, a), Perform(x, a))
  {
    ActIsLegalCall(w, a);
    TwinCall(w.txn, x.txn, CallOf(w, a));
  }

  lemma {:induction false} TwinActs(w: World, x: World, acts: seq<Act>)
    requires TwinWorlds(w, x) && WorldAccounts(w) && ActsLegal(w, acts)
    ensures ObjectsOk(|x.txn.led.bits|, x.objs) && ActsLegal(x, acts)
    ensures TwinWorlds(PerformAll(w, acts), PerformAll(x, acts))
    decreases |acts|
  {
    if acts != [] {
      TwinAct(w, x, acts[0]);
      ActAccounts(w, acts[0]);
      TwinActs(Perform(w, acts[0]), Perform(x, acts[0]), acts[1..]);
    }
  }

  /** A commit on twins is legal on both, writes one record, and leaves twins. */
  lemma TwinCommit(a: Store, b: Store, acts: seq<Act>)
    requires TwinStores(a, b) && StepLegal(a, Commit(acts))
    ensures StepLegal(b, Commit(acts)) && TwinStores(Next(a, Commit(acts)), Next(b, Commit(acts)))
    ensures RecordOf(PerformAll(Begin(a), acts).txn.draft) == RecordOf(PerformAll(Begin(b), acts).txn.draft)
  {
    StoresAreTwins(a, b);
    TwinActs(Begin(a), Begin(b), acts);
    var w, x := PerformAll(Begin(a), acts), PerformAll(Begin(b), acts);
    ActsTracked(a, acts);
    TwinSettle(w.txn.led, x.txn.led, w.txn.draft.cleared);
    CommitOk(a, acts);
    CommitOk(b, acts);
  }

  lemma {:induction false} TwinUnclear(a: Ledger, b: Ledger, ids: seq<nat>)
    requires Alike(a, b) && Below(ids, |a.bits|)
    ensures Alike(Unclear(a, ids), Unclear(b, ids))
    decreases |ids|
  {
    if ids != [] {
      var e := ids[0];
      TwinUnclear(if a.bits[e] then a else a.(bits := a.bits[e := true], totalFree := a.totalFree - 1),
                  if b.bits[e] then b else b.(bits := b.bits[e := true], totalFree := b.totalFree - 1), ids[1..]);
    }
  }

  lemma {:induction false} TwinUnallocate(a: Ledger, b: Ledger, ids: seq<nat>)
    requires Alike(a, b) && Below(ids, |a.bits|)
    ensures Alike(Unallocate(a, ids), Unallocate(b, ids))
    decreases |ids|
  {
    if ids != [] {
      var e := ids[0];
      TwinUnallocate(a.(bits := a.bits[e := false], phase := a.phase[e := Free], totalAlloc := a.totalAlloc - 1),
                     b.(bits := b.bits[e := false], phase := b.phase[e := Free], totalAlloc := b.totalAlloc - 1),
                     ids[1..]);
    }
  }

  ghost predicate Alike(a: Ledger, b: Ledger) {
    WellFormed(a) && WellFormed(b) && b == a.(phase := b.phase, shared := b.shared)
  }

  lemma TwinRollback(a: Ledger, b: Ledger, d: Staged, f: Staged)
    requires Alike(a, b) && DraftInRange(a, d) && f == d.(sharedDec := f.sharedDec)
    ensures DraftInRange(b, f) && Alike(Rollback(a, d), Rollback(b, f))
  {
    TwinUnclear(a, b, d.cleared);
    TwinUnallocate(Unclear(a, d.cleared), Unclear(b, d.cleared), Ids(d));
  }

  lemma {:induction false} SharedSources(t: Txn, segs: seq<Seg>, k: Seg)
    requires WellFormed(t.led) && k in ShareSegs(t, segs).draft.sharedInc
    ensures k in t.draft.sharedInc || k in segs
    decreases |segs|
  {
    if segs != [] {
      var x := segs[0];
      var n := if x in t.led.shared then t.led.shared[x] else 1;
      SharedSources(Txn(t.led.(shared := t.led.shared[x := n + 1]),
                        t.draft.(sharedInc := t.draft.sharedInc + [x])), segs[1..], k);
    }
  }

  lemma {:induction false} ReleasedSources(t: Txn, segs: seq<Seg>, k: Seg)
    requires WellFormed(t.led) && InRange(t.led, segs) && k in ReleaseSegs(t, segs).draft.sharedDec
    ensures k in t.draft.sharedDec || k in segs
    decreases |segs|
  {
    if segs != [] {
      ReleasedSources(ReleaseSeg(t, segs[0]), segs[1..], k);
    }
  }

  ghost predicate SharedBy(calls: seq<Call>, k: Seg) {
    exists i :: 0 <= i < |calls| && calls[i].CallShare? && k in calls[i].segs
  }

  ghost predicate ReleasedBy(calls: seq<Call>, k: Seg) {
    exists i :: 0 <= i < |calls| && calls[i].CallRelease? && k in calls[i].segs
  }

  lemma CallSources(t: Txn, c: Call, k: Seg)
    requires WellFormed(t.led) && Legal(t, c)
    ensures k in Do(t, c).draft.sharedInc ==> k in t.draft.sharedInc || (c.CallShare? && k in c.segs)
    ensures k in Do(t, c).draft.sharedDec ==> k in t.draft.sharedDec || (c.CallRelease? && k in c.segs)
  {
    CallLists(t, c);
    if c.CallShare? {
      SeenInRange(t.led, c.segs, []);
      RefUpFrame(ShareSegs(t, c.segs), Seen(c.segs, []));
      if k in ShareSegs(t, c.segs).draft.sharedInc {
        SharedSources(t, c.segs, k);
      }
    } else if c.CallRelease? {
      SeenInRange(t.led, c.segs, []);
      RefDownFrame(ReleaseSegs(t, c.segs), Seen(c.segs, []));
      if k in ReleaseSegs(t, c.segs).draft.sharedDec {
        ReleasedSources(t, c.segs, k);
      }
    }
  }

  /** What a draft's share lists name was shared, or released, by one of its calls. */
  lemma {:induction false} DraftSources(t: Txn, calls: seq<Call>, k: Seg)
    requires WellFormed(t.led) && LegalAll(t, calls)
    ensures k in DoAll(t, calls).draft.sharedInc ==> k in t.draft.sharedInc || SharedBy(calls, k)
    ensures k in DoAll(t, calls).draft.sharedDec ==> k in t.draft.sharedDec || ReleasedBy(calls, k)
    decreases |calls|
  {
    if calls != [] {
      CallSources(t, calls[0], k);
      DraftSources(Do(t, calls[0]), calls[1..], k);
      if SharedBy(calls[1..], k) {
        var i :| 0 <= i < |calls[1..]| && calls[1..][i].CallShare? && k in calls[1..][i].segs;
        assert calls[i + 1].CallShare? && k in calls[i + 1].segs;
      }
      if ReleasedBy(calls[1..], k) {
        var i :| 0 <= i < |calls[1..]| && calls[1..][i].CallRelease? && k in calls[1..][i].segs;
        assert calls[i + 1].CallRelease? && k in calls[i + 1].segs;
      }
    }
  }

  /** No segment is both shared and released by the calls. */
  ghost predicate Plain(calls: seq<Call>) {
    forall k :: SharedBy(calls, k) ==> !ReleasedBy(calls, k)
  }

  lemma AbortsAlike(a: Store, b: Store, calls: seq<Call>, late: bool)
    requires TwinStores(a, b) && LegalAll(Txn(a.led, EMPTY_DRAFT), calls)
    ensures LegalAll(Txn(b.led, EMPTY_DRAFT), calls)
    ensures var t, u := DoAll(Txn(a.led, EMPTY_DRAFT), calls), DoAll(Txn(b.led, EMPTY_DRAFT), calls);
      && Below(t.draft.cleared, |t.led.bits|) && Below(u.draft.cleared, |u.led.bits|)
      && var s, v := if late then Settle(t.led, t.draft.cleared) else t.led, if late then Settle(u.led, u.draft.cleared) else u.led;
         DraftInRange(s, t.draft) && DraftInRange(v, u.draft) && Alike(Rollback(s, t.draft), Rollback(v, u.draft))
  {
    StoresAreTwins(a, b);
    TwinCalls(Txn(a.led, EMPTY_DRAFT), Txn(b.led, EMPTY_DRAFT), calls);
    var t, u := DoAll(Txn(a.led, EMPTY_DRAFT), calls), DoAll(Txn(b.led, EMPTY_DRAFT), calls);
    CallsTracked(a, calls);
    CallsTracked(b, calls);
    TwinSettle(t.led, u.led, t.draft.cleared);
    if late {
      TwinRollback(Settle(t.led, t.draft.cleared), Settle(u.led, u.draft.cleared), t.draft, u.draft);
    } else {
      TwinRollback(t.led, u.led, t.draft, u.draft);
    }
  }

  /** The ledger after a failed transaction. */
  ghost function Failed(st: Store, calls: seq<Call>, late: bool): (r: Store)
    requires StoreOk(st) && LegalAll(Txn(st.led, EMPTY_DRAFT), calls)
  {
    CallsTracked(st, calls);
    var t := DoAll(Txn(st.led, EMPTY_DRAFT), calls);
    SettleAt(t.led, t.draft.cleared);
    st.(led := Rollback(if late then Settle(t.led, t.draft.cleared) else t.led, t.draft))
  }

  /** A failed transaction that is undone on one of two twins leaves twins if and only if it is undone on
      the other too: if every segment that it shares and releases can be undone there. The recorded
      releases, which decide that, may differ by those of entries of value 1. */
  lemma TwinAbortIff(a: Store, b: Store, calls: seq<Call>, late: bool)
    requires TwinStores(a, b) && StepLegal(a, Abort(calls, late))
    ensures LegalAll(Txn(b.led, EMPTY_DRAFT), calls)
    ensures TwinStores(Failed(a, calls, late), Failed(b, calls, late)) <==> StepLegal(b, Abort(calls, late))
  {
    AbortsAlike(a, b, calls, late);
    AbortIff(a, calls, late);
    AbortIff(b, calls, late);
  }

  lemma TwinAbort(a: Store, b: Store, calls: seq<Call>, late: bool)
    requires TwinStores(a, b) && StepLegal(a, Abort(calls, late)) && StepLegal(b, Abort(calls, late))
    ensures TwinStores(Next(a, Abort(calls, late)), Next(b, Abort(calls, late)))
  {
    TwinAbortIff(a, b, calls, late);
  }

  /** A draft that does not both share and release a segment is undone on both. */
  lemma PlainAborts(a: Store, b: Store, calls: seq<Call>, late: bool)
    requires TwinStores(a, b) && StepLegal(a, Abort(calls, late)) && Plain(calls)
    ensures StepLegal(b, Abort(calls, late))
  {
    StoresAreTwins(a, b);
    TwinCalls(Txn(a.led, EMPTY_DRAFT), Txn(b.led, EMPTY_DRAFT), calls);
    var u := DoAll(Txn(b.led, EMPTY_DRAFT), calls);
    forall k ensures !(k in u.draft.sharedInc && k in u.draft.sharedDec) {
      DraftSources(Txn(b.led, EMPTY_DRAFT), calls, k);
    }
  }

  lemma {:induction false} TwinPins(a: Ledger, b: Ledger, ids: seq<nat>)
    requires Alike(a, b)
    ensures Alike(PinAll(a, ids), PinAll(b, ids))
    decreases |ids|
  {
    if ids != [] {
      TwinPins(if ids[0] < |a.bits| then a.(pins := a.pins[ids[0] := a.pins[ids[0]] + 1]) else a,
               if ids[0] < |b.bits| then b.(pins := b.pins[ids[0] := b.pins[ids[0]] + 1]) else b, ids[1..]);
    }
  }

  lemma {:induction false} TwinUnpins(a: Ledger, b: Ledger, ids: seq<nat>)
    requires Alike(a, b) && UnpinLegal(a, ids)
    ensures UnpinLegal(b, ids) && Alike(UnpinAll(a, ids), UnpinAll(b, ids))
    decreases |ids|
  {
    if ids != [] {
      TwinUnpins(UnpinOne(a, ids[0]), UnpinOne(b, ids[0]), ids[1..]);
    }
  }

  lemma TwinRepair(a: Store, b: Store, e: nat)
    requires TwinStores(a, b) && StepLegal(a, RepairLeak(e))
    ensures StepLegal(b, RepairLeak(e)) && TwinStores(Next(a, RepairLeak(e)), Next(b, RepairLeak(e)))
  {
    StoresAreTwins(a, b);
    var t, u := ReleaseLeaked(Txn(a.led, EMPTY_DRAFT), e), ReleaseLeaked(Txn(b.led, EMPTY_DRAFT), e);
    TwinSettle(t.led, u.led, t.draft.cleared);
    RepairOk(a, e);
    RepairOk(b, e);
  }

  lemma TwinStep(a: Store, b: Store, p: Step)
    requires TwinStores(a, b) && StepLegal(a, p) && (p.Abort? ==> StepLegal(b, p))
    ensures StepLegal(b, p) && TwinStores(Next(a, p), Next(b, p))
  {
    match p
    case Commit(acts) => TwinCommit(a, b, acts);
    case Abort(calls, late) => TwinAbort(a, b, calls, late);
    case Pin(ids) =>
      TwinPins(a.led, b.led, ids);
      StepOk(a, p);
      StepOk(b, p);
    case Unpin(ids) =>
      TwinUnpins(a.led, b.led, ids);
      StepOk(a, p);
      StepOk(b, p);
    case RepairLeak(e) => TwinRepair(a, b, e);
  }

  /** Every failed transaction of the run can be undone on the second ledger too. */
  ghost predicate UndoneOnBoth(a: Store, b: Store, run: seq<Step>)
    requires TwinStores(a, b) && RunLegal(a, run)
    decreases |run|
  {
    run == [] ||
    ((run[0].Abort? ==> StepLegal(b, run[0])) &&
     (TwinStep(a, b, run[0]); StepOk(a, run[0]); UndoneOnBoth(Next(a, run[0]), Next(b, run[0]), run[1..])))
  }

  /** The second store after a step of the first, undone or not. */
  ghost function Alongside(a: Store, b: Store, p: Step): Store
    requires TwinStores(a, b) && StepLegal(a, p)
  {
    if p.Abort? then
      TwinAbortIff(a, b, p.calls, p.afterCommitPoint);
      Failed(b, p.calls, p.afterCommitPoint)
    else
      TwinStep(a, b, p);
      Next(b, p)
  }

  /** The stores are twins after every step. */
  ghost predicate TwinsThroughout(a: Store, b: Store, run: seq<Step>)
    requires StoreOk(a) && RunLegal(a, run)
    decreases |run|
  {
    TwinStores(a, b) &&
    (run == [] || (StepOk(a, run[0]); TwinsThroughout(Next(a, run[0]), Alongside(a, b, run[0]), run[1..])))
  }

  lemma AlongsideIff(a: Store, b: Store, p: Step)
    requires TwinStores(a, b) && StepLegal(a, p)
    ensures TwinStores(Next(a, p), Alongside(a, b, p)) <==> (p.Abort? ==> StepLegal(b, p))
    ensures StepLegal(b, p) ==> Alongside(a, b, p) == Next(b, p)
  {
    if p.Abort? {
      TwinAbortIff(a, b, p.calls, p.afterCommitPoint);
      assert Next(a, p) == Failed(a, p.calls, p.afterCommitPoint);
    } else {
      TwinStep(a, b, p);
    }
  }

  /** Over a run that is legal on one of them twins stay twins if and only if every failed transaction is
      undone on both; then the run is legal on both. */
  lemma {:induction false} TwinRuns(a: Store, b: Store, run: seq<Step>)
    requires TwinStores(a, b) && RunLegal(a, run)
    ensures TwinsThroughout(a, b, run) <==> UndoneOnBoth(a, b, run)
    ensures UndoneOnBoth(a, b, run) ==> RunLegal(b, run) && TwinStores(RunAll(a, run), RunAll(b, run))
    decreases |run|
  {
    if run != [] {
      var p := run[0];
      AlongsideIff(a, b, p);
      StepOk(a, p);
      if p.Abort? ==> StepLegal(b, p) {
        TwinStep(a, b, p);
        StepOk(b, p);
        TwinRuns(Next(a, p), Next(b, p), run[1..]);
      }
    }
  }

  lemma {:induction false} PlainRuns(a: Store, b: Store, run: seq<Step>)
    requires TwinStores(a, b) && RunLegal(a, run)
    requires forall i :: 0 <= i < |run| && run[i].Abort? ==> Plain(run[i].calls)
    ensures UndoneOnBoth(a, b, run)
    decreases |run|
  {
    if run != [] {
      if run[0].Abort? {
        PlainAborts(a, b, run[0].calls, run[0].afterCommitPoint);
      }
      TwinStep(a, b, run[0]);
      StepOk(a, run[0]);
      PlainRuns(Next(a, run[0]), Next(b, run[0]), run[1..]);
    }
  }

  /** Every failed transaction of the run can be undone on the rebuilt ledger too. */
  ghost predicate UndoneAfterRestart(st: Store, run: seq<Step>)
    requires StoreOk(st) && RunLegal(st, run)
  {
    RebuiltIsTwin(st);
    UndoneOnBoth(st, st.(led := Rebuilt(st.led, st.objs)), run)
  }

  /** However long the program goes on after a restart, the rebuilt ledger takes every step as the one in
      memory would have, with the same extents free, the same bytes and references counted and the same
      steps legal, if and only if every failed transaction can be undone on both. */
  lemma RebuiltRunsAlike(st: Store, run: seq<Step>)
    requires StoreOk(st) && RunLegal(st, run)
    ensures var b := st.(led := Rebuilt(st.led, st.objs));
      && (TwinsThroughout(st, b, run) <==> UndoneAfterRestart(st, run))
      && (UndoneAfterRestart(st, run) ==> StoreOk(b) && RunLegal(b, run) && TwinStores(RunAll(st, run), RunAll(b, run)))
  {
    RebuiltIsTwin(st);
    TwinRuns(st, st.(led := Rebuilt(st.led, st.objs)), run);
  }
}
