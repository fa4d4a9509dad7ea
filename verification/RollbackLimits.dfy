/** Where rollback stops being an inverse, and exactly when it still is one. */
module RollbackLimits {
  import opened Ledgers
  import opened Rollbacks

  // ---------- a draft that shares and releases the same segment ----------

  /** Calls other than a share leave the list of shares alone, and likewise for releases. */
  lemma CallLists(t: Txn, c: Call)
    requires WellFormed(t.led) && Legal(t, c)
    ensures !c.CallShare? ==> Do(t, c).draft.sharedInc == t.draft.sharedInc
    ensures !c.CallRelease? ==> Do(t, c).draft.sharedDec == t.draft.sharedDec
    ensures !c.CallShare? && !c.CallRelease? ==> Do(t, c).led.shared == t.led.shared
  {
    match c
    case CallAllocate(ids, skipped, _) => TakeAllAt(Isolate(t.led, skipped), ids);
    case CallNoSpace(ids, skipped) =>
      TakeAllAt(Isolate(t.led, skipped), ids);
      GiveBackAllAt(TakeAll(Isolate(t.led, skipped), ids), ids);
    case CallNote(_) =>
    case CallAdd(segs) =>
      SeenInRange(t.led, segs, []);
      AddSegsFrame(t, multiset(t.draft.inflight), segs);
      RefUpFrame(AddSegs(t, multiset(t.draft.inflight), segs), Seen(segs, []));
    case CallShare(segs) =>
      SeenInRange(t.led, segs, []);
      ShareSegsFrame(t, segs);
      RefUpFrame(ShareSegs(t, segs), Seen(segs, []));
    case CallRelease(segs) =>
      SeenInRange(t.led, segs, []);
      ReleaseKeepsShares(t, segs);
      RefDownFrame(ReleaseSegs(t, segs), Seen(segs, []));
  }

  lemma {:induction false} ReleaseKeepsShares(t: Txn, segs: seq<Seg>)
    requires WellFormed(t.led) && InRange(t.led, segs)
    ensures ReleaseSegs(t, segs).draft.sharedInc == t.draft.sharedInc
    decreases |segs|
  {
    if segs != [] {
      ReleaseKeepsShares(ReleaseSeg(t, segs[0]), segs[1..]);
    }
  }

  /** How the entry of `k` relates to the draft's undo lists, whatever the order of its shares and
      releases. `surplus` counts the releases that found no entry and so are on no list. */
  ghost predicate Nets(s0: Ledger, t: Txn, k: Seg) {
    var was, now := Entry(s0.shared, k), Entry(t.led.shared, k);
    var shares, releases := Count(t.draft.sharedInc, k), Count(t.draft.sharedDec, k);
    var surplus := now + releases - shares - Holding(was);
    if was == 0 && shares == 0 then now == 0 && releases == 0
    else
      && surplus >= 0
      && (surplus == 0 || releases >= Holding(was) + 2 * surplus - 2)
      && releases + now >= Holding(was) + 2 * surplus
  }

  lemma {:induction false} ShareNets(s0: Ledger, t: Txn, segs: seq<Seg>, k: Seg)
    requires WellFormed(t.led) && Nets(s0, t, k)
    ensures Nets(s0, ShareSegs(t, segs), k)
    decreases |segs|
  {
    if segs != [] {
      var x := segs[0];
      var n := if x in t.led.shared then t.led.shared[x] else 1;
      CountAppend(t.draft.sharedInc, x, k);
      ShareNets(s0, Txn(t.led.(shared := t.led.shared[x := n + 1]),
                        t.draft.(sharedInc := t.draft.sharedInc + [x])), segs[1..], k);
    }
  }

  lemma ReleaseOneNets(s0: Ledger, t: Txn, x: Seg, k: Seg)
    requires WellFormed(t.led) && x.ext < |t.led.bits| && Nets(s0, t, k)
    ensures Nets(s0, ReleaseSeg(t, x), k)
  {
    CountAppend(t.draft.sharedDec, x, k);
  }

  lemma {:induction false} ReleaseNets(s0: Ledger, t: Txn, segs: seq<Seg>, k: Seg)
    requires WellFormed(t.led) && InRange(t.led, segs) && Nets(s0, t, k)
    ensures Nets(s0, ReleaseSegs(t, segs), k)
    decreases |segs|
  {
    if segs != [] {
      ReleaseOneNets(s0, t, segs[0], k);
      ReleaseNets(s0, ReleaseSeg(t, segs[0]), segs[1..], k);
    }
  }

  lemma {:induction false} DraftNets(s0: Ledger, t: Txn, calls: seq<Call>, k: Seg)
    requires WellFormed(t.led) && LegalAll(t, calls) && Nets(s0, t, k)
    ensures Nets(s0, DoAll(t, calls), k)
    decreases |calls|
  {
    if calls != [] {
      var c := calls[0];
      CallLists(t, c);
      if c.CallShare? {
        SeenInRange(t.led, c.segs, []);
        ShareNets(s0, t, c.segs, k);
        RefUpFrame(ShareSegs(t, c.segs), Seen(c.segs, []));
      } else if c.CallRelease? {
        SeenInRange(t.led, c.segs, []);
        ReleaseNets(s0, t, c.segs, k);
        RefDownFrame(ReleaseSegs(t, c.segs), Seen(c.segs, []));
      }
      DraftNets(s0, Do(t, c), calls[1..], k);
    }
  }

  /** The holders before the draft number exactly its recorded releases of `k`, or exceed them by at
      least two. */
  predicate Undoable(was: map<Seg, nat>, d: Staged, k: Seg) {
    var before, releases := Holding(Entry(was, k)), Count(d.sharedDec, k);
    before == releases || before >= releases + 2
  }

  lemma UndoneShares(s: Ledger, d: Staged)
    requires WellFormed(s) && DraftInRange(s, d)
    ensures Rollback(s, d).shared == Reshare(Unshare(s.shared, d.sharedInc), d.sharedDec)
  {
    UnclearAt(s, d.cleared);
    UnallocateAt(Unclear(s, d.cleared), Ids(d));
  }

  /** A draft that both shares and releases `k`, in any order and any number (an object copied onto
      itself does this), is undone correctly at `k` if and only if `k` is undoable. */
  lemma ShareAndReleaseExact(s0: Ledger, calls: seq<Call>, k: Seg)
    requires WellFormed(s0) && LegalAll(Txn(s0, EMPTY_DRAFT), calls)
    requires var d := DoAll(Txn(s0, EMPTY_DRAFT), calls).draft; k in d.sharedInc && k in d.sharedDec
    ensures var t := DoAll(Txn(s0, EMPTY_DRAFT), calls);
      var undone := Reshare(Unshare(t.led.shared, t.draft.sharedInc), t.draft.sharedDec);
      Holding(Entry(undone, k)) == Holding(Entry(s0.shared, k)) <==> Undoable(s0.shared, t.draft, k)
  {
    var t := DoAll(Txn(s0, EMPTY_DRAFT), calls);
    DraftNets(s0, Txn(s0, EMPTY_DRAFT), calls, k);
    CountPositive(t.draft.sharedInc, k);
    CountPositive(t.draft.sharedDec, k);
    UndoShareAt(t.led.shared, t.draft.sharedInc, t.draft.sharedDec, k);
  }

  const K := Seg(0, 0, 4096)

  /** One extent holding one segment that two objects share. */
  const TWO_HOLDERS := Ledger([true], [2], [1], [4096], [Sealed], map[K := 2], [0], {}, 1, 0)

  lemma ShareOne(t: Txn, k: Seg)
    requires WellFormed(t.led) && k.ext < |t.led.bits|
    ensures var u := ShareObject(t, [k]);
      && Entry(u.led.shared, k) == Holding(Entry(t.led.shared, k)) + 1
      && u.draft == t.draft.(sharedInc := t.draft.sharedInc + [k], refcountInc := u.draft.refcountInc)
  {
    var n := Holding(Entry(t.led.shared, k));
    var r := Txn(t.led.(shared := t.led.shared[k := n + 1]),
                 t.draft.(sharedInc := t.draft.sharedInc + [k]));
    assert [k][1..] == [];
    assert ShareSegs(t, [k]) == ShareSegs(r, []) == r;
    SeenInRange(t.led, [k], []);
    RefUpFrame(ShareSegs(t, [k]), Seen([k], []));
  }

  lemma ReleaseOneOfMany(t: Txn, k: Seg)
    requires WellFormed(t.led) && k.ext < |t.led.bits| && Entry(t.led.shared, k) > 1
    ensures var u := ReleaseObject(t, [k]);
      && Entry(u.led.shared, k) == Entry(t.led.shared, k) - 1
      && u.draft == t.draft.(sharedDec := t.draft.sharedDec + [k], refcountDec := u.draft.refcountDec)
  {
    assert [k][1..] == [];
    SeenInRange(t.led, [k], []);
    assert ReleaseSegs(t, [k]) == ReleaseSegs(ReleaseSeg(t, k), []) == ReleaseSeg(t, k);
    RefDownFrame(ReleaseSegs(t, [k]), Seen([k], []));
  }

  /** The smallest failing case: with two holders, one share and one release, the undone table says
      that a single holder is left, so the next release would free bytes that are still in use. */
  lemma ShareThenReleaseLosesAHolder()
    ensures var t := ReleaseObject(ShareObject(Txn(TWO_HOLDERS, EMPTY_DRAFT), [K]), [K]);
      && Sound(TWO_HOLDERS)
      && Entry(TWO_HOLDERS.shared, K) == 2
      && Entry(Reshare(Unshare(t.led.shared, t.draft.sharedInc), t.draft.sharedDec), K) == 1
  {
    var begin := Txn(TWO_HOLDERS, EMPTY_DRAFT);
    ShareOne(begin, K);
    var mid := ShareObject(begin, [K]);
    ReleaseOneOfMany(mid, K);
    var t := ReleaseObject(mid, [K]);
    assert [K][1..] == [];
    assert t.draft.sharedInc == [K] && t.draft.sharedDec == [K];
    UndoShareAt(t.led.shared, t.draft.sharedInc, t.draft.sharedDec, K);
  }

  // ---------- a release of no bytes ----------

  /** One free extent. */
  const ONE_FREE := Ledger([false], [0], [0], [0], [Free], map[], [0], {}, 0, 0)

  lemma ReleaseOne(s: Ledger, k: Seg)
    requires Sound(s) && k.ext < |s.bits|
    ensures var t := ReleaseObject(Txn(s, EMPTY_DRAFT), [k]);
      && t.led.bits == s.bits && t.draft.alloc == [] && DraftInRange(t.led, t.draft)
      && t.draft.cleared == if Entry(s.shared, k) <= 1 && s.live[k.ext] == k.len then [k.ext] else []
  {
    var begin := Txn(s, EMPTY_DRAFT);
    assert [k][1..] == [];
    var mid := ReleaseSegs(begin, [k]);
    assert mid == ReleaseSegs(ReleaseSeg(begin, k), []) == ReleaseSeg(begin, k);
    SeenInRange(s, [k], []);
    RefDownFrame(mid, Seen([k], []));
    RefDownRange(mid, Seen([k], []));
  }

  /** A zero-length release of a free extent counts as emptying it, and the undo then marks the
      free extent as allocated: the caller must not release zero bytes of an unallocated extent. */
  lemma ZeroLengthReleaseTakesAFreeExtent()
    ensures var t := ReleaseObject(Txn(ONE_FREE, EMPTY_DRAFT), [Seg(0, 0, 0)]);
      && DraftInRange(t.led, t.draft)
      && !ONE_FREE.bits[0] && Rollback(t.led, t.draft).bits[0]
  {
    ReleaseOne(ONE_FREE, Seg(0, 0, 0));
    var t := ReleaseObject(Txn(ONE_FREE, EMPTY_DRAFT), [Seg(0, 0, 0)]);
    UnclearAt(t.led, t.draft.cleared);
    UnallocateAt(Unclear(t.led, t.draft.cleared), Ids(t.draft));
  }

  /** A single release is undone on the bitmap if and only if it releases bytes, or the extent is
      allocated, or other holders remain. */
  lemma ReleaseUndoneExactly(s: Ledger, k: Seg)
    requires Sound(s) && k.ext < |s.bits|
    ensures var t := ReleaseObject(Txn(s, EMPTY_DRAFT), [k]);
      && DraftInRange(t.led, t.draft)
      && (Rollback(t.led, t.draft).bits == s.bits <==> k.len > 0 || s.bits[k.ext] || Entry(s.shared, k) > 1)
  {
    ReleaseOne(s, k);
    var t := ReleaseObject(Txn(s, EMPTY_DRAFT), [k]);
    UnclearAt(t.led, t.draft.cleared);
    UnallocateAt(Unclear(t.led, t.draft.cleared), Ids(t.draft));
    assert Ids(t.draft) == [];
    var r := Rollback(t.led, t.draft);
    assert forall e :: 0 <= e < |s.bits| ==> r.bits[e] == (s.bits[e] || e in t.draft.cleared);
  }
}
