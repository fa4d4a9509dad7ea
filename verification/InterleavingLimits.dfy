/** When a transaction can be undone beside others, in terms of what they have done meanwhile; and what
    happens when it cannot. */
module InterleavingLimits {
  import opened Ledgers
  import opened Rollbacks
  import opened RollbackLimits
  import opened Holdings
  import opened Runs
  import opened Undoing
  import LooseRollbacks
  import opened Interleavings
  import opened CompactionLedgers
  import opened CompactionWindows

  // ---------- the condition in terms of segments ----------

  /** Nobody else holds what the thread has put, and nobody has put again what it has released for good. */
  ghost predicate Tidy(objs: seq<Object>, th: Thread) {
    var back := Keys(Back(objs, th));
    && Distinct(th.counted) && Distinct(th.taken)
    && (forall k :: k in th.counted ==> k in Keys(objs) && k !in back)
    && (forall k :: k in th.taken ==> k !in Keys(objs) && k in back)
  }

  /** What the thread has released while others held it, and nobody holds any more. */
  ghost function Lost(objs: seq<Object>, th: Thread): set<Seg> {
    Keys(Back(objs, th)) - Keys(objs) - (set k | k in th.taken)
  }

  /** What only the thread's copies hold any more. */
  ghost function Stray(objs: seq<Object>, th: Thread): set<Seg> {
    Keys(objs) - Keys(Back(objs, th)) - (set k | k in th.counted)
  }

  lemma SetSum(segs: seq<Seg>, e: nat)
    requires Distinct(segs)
    ensures Bytes((set k | k in segs), e) == SegSum(segs, e)
  {
    var ks := set k | k in segs;
    BytesAddAll({}, segs, e);
    assert {} + ks == ks;
    NoKeyNoBytes({}, e);
  }

  lemma TidyBytes(objs: seq<Object>, th: Thread, e: nat)
    requires Tidy(objs, th)
    ensures var back := Keys(Back(objs, th));
      Bytes(Keys(objs), e) + SegSum(th.taken, e) + Bytes(Lost(objs, th), e) ==
      Bytes(back, e) + SegSum(th.counted, e) + Bytes(Stray(objs, th), e)
  {
    var now, back := Keys(objs), Keys(Back(objs, th));
    var taken, counted := (set k | k in th.taken), (set k | k in th.counted);
    SetSum(th.taken, e);
    SetSum(th.counted, e);
    var both := now * back;
    assert now == both + counted + Stray(objs, th) && back == both + taken + Lost(objs, th);
    BytesUnion(both, counted, e);
    BytesUnion(both + counted, Stray(objs, th), e);
    BytesUnion(both, taken, e);
    BytesUnion(both + taken, Lost(objs, th), e);
  }

  lemma AgreesExactly(now: nat, taken: nat, back: nat, counted: nat, others: nat, lost: nat, stray: nat)
    requires now + taken + lost == back + counted + stray && lost < U32 && stray < U32 && back + others < U32
    ensures Agrees(now, taken, back, counted, others) <==> lost == stray
  {
    assert now + taken - (back + counted) == stray - lost;
  }

  lemma SubsetBytes(a: set<Seg>, b: set<Seg>, e: nat)
    requires a <= b
    ensures Bytes(a, e) <= Bytes(b, e)
  {
    assert b == (b - a) + a;
    BytesUnion(b - a, a, e);
  }

  /** The counters of the extent have room for what would be held. */
  ghost predicate Room(g: Shared, i: nat, e: nat)
    requires i < |g.threads|
  {
    var back := Back(g.objs, g.threads[i]);
    Bytes(Keys(back), e) + SumFor(Others(g, i), e) < U32 && Touching(back, e) < U32
  }

  lemma TidyIff(g: Shared, i: nat, e: nat)
    requires Ok(g) && i < |g.threads| && e < |g.led.bits| && Tidy(g.objs, g.threads[i]) && Room(g, i, e)
    ensures Touching(Back(g.objs, g.threads[i]), e) < U32
    ensures BytesUndone(g, i, e) <==> Bytes(Lost(g.objs, g.threads[i]), e) == Bytes(Stray(g.objs, g.threads[i]), e)
  {
    var th := g.threads[i];
    var now, back := Keys(g.objs), Keys(Back(g.objs, th));
    assert LiveAccounts(g.led, g.objs, Notes(g.threads), e);
    TidyBytes(g.objs, th, e);
    SubsetBytes(Lost(g.objs, th), back, e);
    SubsetBytes(Stray(g.objs, th), now, e);
    AgreesExactly(Bytes(now, e), SegSum(th.taken, e), Bytes(back, e), SegSum(th.counted, e), SumFor(Others(g, i), e),
                  Bytes(Lost(g.objs, th), e), Bytes(Stray(g.objs, th), e));
  }

  /** Something would lie in the extent: an object's segment, or one that somebody else is writing. */
  ghost predicate InUse(g: Shared, i: nat, e: nat)
    requires i < |g.threads|
  {
    Bytes(Keys(Back(g.objs, g.threads[i])), e) + SumFor(Others(g, i), e) > 0
  }

  /** One extent allows the undo: if something would lie in it, it has not been freed, unless by the
      transaction's own commit point; if the transaction has allocated it, nobody else uses it; and the
      segments there that it released and nobody holds any more have as many bytes as those that only its
      copies hold. */
  ghost predicate Allows(g: Shared, i: nat, e: nat)
    requires WellFormed(g.led) && i < |g.threads| && e < |g.led.bits|
  {
    var th := g.threads[i];
    && (e !in Ids(th.draft) && InUse(g, i, e) ==> g.led.bits[e] || e in th.draft.cleared)
    && (e in Ids(th.draft) ==> !InUse(g, i, e))
    && Bytes(Lost(g.objs, th), e) == Bytes(Stray(g.objs, th), e)
  }

  lemma AllowsIff(g: Shared, i: nat, e: nat)
    requires Ok(g) && i < |g.threads| && e < |g.led.bits| && Tidy(g.objs, g.threads[i]) && Room(g, i, e)
    ensures var th := g.threads[i];
      Allows(g, i, e) <==> BytesUndone(g, i, e) && BitBack(g.led, th.draft, Back(g.objs, th), Others(g, i), e)
  {
    TidyIff(g, i, e);
  }

  /** A tidy transaction can be undone beside the others if and only if every extent allows it, and the
      share table, with its shares and releases taken back, counts the holders. */
  lemma TidyUndoIff(g: Shared, i: nat)
    requires Ok(g) && i < |g.threads| && Tidy(g.objs, g.threads[i])
    requires forall e :: 0 <= e < |g.led.bits| ==> Room(g, i, e)
    ensures Accounted(After(g, Undo(i))) <==>
      && (forall e :: 0 <= e < |g.led.bits| ==> Allows(g, i, e))
      && (forall k :: ShareBack(g.led, g.threads[i].draft, Back(g.objs, g.threads[i]), k))
  {
    var th := g.threads[i];
    UndoIff(g, i);
    forall e | 0 <= e < |g.led.bits|
      ensures Touching(Back(g.objs, th), e) < U32
      ensures Allows(g, i, e) <==> BytesUndone(g, i, e) && BitBack(g.led, th.draft, Back(g.objs, th), Others(g, i), e)
    {
      assert Room(g, i, e);
      AllowsIff(g, i, e);
    }
  }

  // ---------- runs that break each of the conditions ----------

  /** A draft that deletes an object of the one segment `k`. */
  function Deleting(s: Ledger, k: Seg): Txn
    requires WellFormed(s) && k.ext < |s.bits|
  {
    ReleaseObject(Txn(s, EMPTY_DRAFT), [k])
  }

  lemma DeletingShape(s: Ledger, k: Seg)
    requires WellFormed(s) && k.ext < |s.bits| && s.live[k.ext] >= k.len
    ensures var t, m := Deleting(s, k), Entry(s.shared, k);
      && DraftInRange(t.led, t.draft) && Took(t.draft, k, m, s.live[k.ext]) && Ids(t.draft) == []
      && t.led.bits == s.bits && t.led.pins == s.pins && Entry(t.led.shared, k) == Released(m)
      && t.led.live[k.ext] == if m > 1 then s.live[k.ext] else s.live[k.ext] - k.len
  {
    var begin := Txn(s, EMPTY_DRAFT);
    ReleaseByEntry(begin, k);
    SeenInRange(s, [k], []);
    ReleaseSegsFrame(begin, [k]);
    RefDownRange(ReleaseSegs(begin, [k]), Seen([k], []));
    ReleaseInRange(s, [k]);
    ReleaseKeepsShared(begin, [k]);
    RefDownFrame(ReleaseSegs(begin, [k]), Seen([k], []));
  }

  /** Two objects share a segment. Their deletes overlap, and the second commits: the undo of the first
      leaves its object in a free extent. */
  lemma OverlappingDeletes(s: Ledger, k: Seg)
    requires WellFormed(s) && k.ext < |s.bits| && s.pins[k.ext] == 0 && k.len > 0
    requires Entry(s.shared, k) == 2 && s.live[k.ext] == k.len
    ensures var t := Deleting(s, k);
      && k.ext < |t.led.bits| && DraftInRange(Freed(t.led, [k]), t.draft)
      && var r := Rollback(Freed(t.led, [k]), t.draft);
         !r.bits[k.ext] && Entry(r.shared, k) == 1 && r.live[k.ext] == 0 && MayTake(r, [k.ext], {})
  {
    DeletingShape(s, k);
    var t := Deleting(s, k);
    FreedByEntry(t.led, k);
    RollbackOne(Freed(t.led, [k]), t.draft, k, 2, k.len);
  }

  /** An extent holds one segment of each of two objects. Their deletes overlap, and the second, which
      empties the extent, commits: the undo of the first leaves its object in a free extent. */
  lemma EmptiedBeforeUndo(s: Ledger, k: Seg, m: Seg)
    requires WellFormed(s) && k.ext < |s.bits| && s.pins[k.ext] == 0 && k.len > 0 && m.len > 0 && m.ext == k.ext && m != k
    requires s.shared == map[] && s.live[k.ext] == k.len + m.len
    ensures var t := Deleting(s, k);
      && k.ext < |t.led.bits| && DraftInRange(Freed(t.led, [m]), t.draft)
      && var r := Rollback(Freed(t.led, [m]), t.draft); !r.bits[k.ext] && r.live[k.ext] == k.len && MayTake(r, [k.ext], {})
  {
    DeletingShape(s, k);
    ReleaseUnshared(Txn(s, EMPTY_DRAFT), k);
    var t := Deleting(s, k);
    FreedByEntry(t.led, m);
    RollbackOne(Freed(t.led, [m]), t.draft, k, 0, k.len + m.len);
  }

  /** A transaction allocates an extent; another puts its data there; the first is undone: the other's data
      lies in a free extent. */
  lemma AllocatedForAnother(s: Ledger, p: Seg)
    requires WellFormed(s) && p.ext < |s.bits| && p.len > 0 && s.live[p.ext] + p.len < U32
    requires MayTake(s, [p.ext], {})
    ensures var t := Allocate(Txn(s, EMPTY_DRAFT), [p.ext], {}, [(p.ext, 1)]);
      && WellFormed(t.led) && p.ext < |t.led.bits|
      && var put := AddObject(Txn(t.led, EMPTY_DRAFT), [p]).led;
         && DraftInRange(put, t.draft)
         && var r := Rollback(put, t.draft); !r.bits[p.ext] && r.live[p.ext] == s.live[p.ext] + p.len
  {
    var t := Allocate(Txn(s, EMPTY_DRAFT), [p.ext], {}, [(p.ext, 1)]);
    TakeAllAt(Isolate(s, {}), [p.ext]);
    AddOne(Txn(t.led, EMPTY_DRAFT), p);
    AllocatedOne(AddObject(Txn(t.led, EMPTY_DRAFT), [p]).led, t.draft, p.ext);
  }

  lemma AllocatedUndone(s: Ledger, d: Staged, e: nat)
    requires WellFormed(s) && e < |s.bits| && d == EMPTY_DRAFT.(alloc := [] + [(e, 1)])
    ensures DraftInRange(s, d) && Ids(d) == [e]
    ensures var r := Rollback(s, d);
      && r.live == s.live && r.refcounts == s.refcounts && r.shared == s.shared
      && forall x :: 0 <= x < |s.bits| ==> r.bits[x] == (s.bits[x] && x != e)
  {
    assert [] + [(e, 1)] == [(e, 1)];
    assert Expand([(e, 1)]) == Span(e, 1) + Expand([]) == [e];
    RollbackShape(s, d);
    UnallocateAt(s, [e]);
  }

  lemma AddingRestores(s: Ledger, p: Seg)
    requires WellFormed(s) && p.ext < |s.bits|
    ensures var u := AddObject(Txn(s, EMPTY_DRAFT), [p]);
      && DraftInRange(u.led, u.draft) && u.draft.cleared == [] && Ids(u.draft) == []
      && u.draft.sharedInc == [] && u.draft.sharedDec == []
      && Rollback(u.led, u.draft).live == s.live && Rollback(u.led, u.draft).refcounts == s.refcounts
      && u.led == s.(live := u.led.live, refcounts := u.led.refcounts)
  {
    var begin, calls := Txn(s, EMPTY_DRAFT), [CallAdd([p])];
    assert LooseRollbacks.Loose(begin, calls[0]) && calls[1..] == [];
    assert LooseRollbacks.AllLoose(LooseRollbacks.Do(begin, calls[0]), calls[1..]);
    assert LooseRollbacks.DoAll(begin, calls) == LooseRollbacks.DoAll(LooseRollbacks.Do(begin, calls[0]), calls[1..]);
    LooseRollbacks.LooseRollbackRestores(s, calls);
    SeenInRange(s, [p], []);
    AddSegsFrame(begin, multiset(begin.draft.inflight), [p]);
    RefUpFrame(AddSegs(begin, multiset(begin.draft.inflight), [p]), Seen([p], []));
  }

  /** Where a draft has no bits to give back, it moves counters alone, by what it has recorded. */
  lemma SameCounters(s: Ledger, r: Ledger, d: Staged)
    requires WellFormed(s) && WellFormed(r) && DraftInRange(s, d) && DraftInRange(r, d)
    requires s.live == r.live && s.refcounts == r.refcounts && |s.bits| == |r.bits|
    requires d.cleared == [] && Ids(d) == [] && d.sharedInc == [] && d.sharedDec == []
    ensures Rollback(r, d).live == Rollback(s, d).live && Rollback(r, d).refcounts == Rollback(s, d).refcounts
    ensures Rollback(r, d).bits == r.bits && Rollback(r, d).shared == r.shared
  {
  }

  /** Taking one free extent. */
  lemma TakesOne(s: Ledger, e: nat)
    requires WellFormed(s) && e < |s.bits| && s.refcounts[e] == 0
    ensures var t := Allocate(Txn(s, EMPTY_DRAFT), [e], {}, [(e, 1)]);
      && WellFormed(t.led) && t.draft == EMPTY_DRAFT.(alloc := [] + [(e, 1)])
      && t.led.live == s.live && t.led.refcounts == s.refcounts && t.led.shared == s.shared
      && t.led.bits == s.bits[e := true]
  {
    TakeAllAt(Isolate(s, {}), [e]);
    assert [e][0] == e;
  }

  /** The first transaction is undone, and then the other one as well: the books, which were wrong in
      between, with bytes on a free extent, are right again. */
  lemma RightAgain(s: Ledger, objs: seq<Object>, p: Seg)
    requires Accounts(s, objs, []) && p.ext < |s.bits| && p.len > 0 && s.live[p.ext] + p.len < U32
    requires MayTake(s, [p.ext], {})
    ensures var t := Allocate(Txn(s, EMPTY_DRAFT), [p.ext], {}, [(p.ext, 1)]);
      && WellFormed(t.led) && p.ext < |t.led.bits|
      && var u := AddObject(Txn(t.led, EMPTY_DRAFT), [p]);
         && DraftInRange(u.led, t.draft)
         && var once := Rollback(u.led, t.draft);
            && once.live[p.ext] > 0 && !once.bits[p.ext] && DraftInRange(once, u.draft)
            && Accounts(Rollback(once, u.draft), objs, [])
  {
    var e := p.ext;
    AccountsAreSound(s, objs, []);
    assert [e][0] == e && !s.bits[e];
    TakesOne(s, e);
    var t := Allocate(Txn(s, EMPTY_DRAFT), [e], {}, [(e, 1)]);
    AddOne(Txn(t.led, EMPTY_DRAFT), p);
    AddingRestores(t.led, p);
    var u := AddObject(Txn(t.led, EMPTY_DRAFT), [p]);
    AllocatedUndone(u.led, t.draft, e);
    var once := Rollback(u.led, t.draft);
    SameCounters(u.led, once, u.draft);
    BackAgain(s, objs, t.led, once, Rollback(once, u.draft), e);
  }

  lemma BackAgain(s: Ledger, objs: seq<Object>, taken: Ledger, once: Ledger, r: Ledger, e: nat)
    requires Accounts(s, objs, []) && e < |s.bits| && !s.bits[e] && taken.bits == s.bits[e := true]
    requires WellFormed(r) && |once.bits| == |s.bits| && r.bits == once.bits
    requires forall x :: 0 <= x < |s.bits| ==> once.bits[x] == (taken.bits[x] && x != e)
    requires r.live == s.live && r.refcounts == s.refcounts && r.shared == s.shared
    ensures Accounts(r, objs, [])
  {
    assert r.bits == s.bits;
    MoreBits(s, r, objs, []);
  }

  lemma AllocatedOne(s: Ledger, d: Staged, e: nat)
    requires WellFormed(s) && e < |s.bits| && d == EMPTY_DRAFT.(alloc := [] + [(e, 1)])
    ensures DraftInRange(s, d) && !Rollback(s, d).bits[e] && Rollback(s, d).live[e] == s.live[e]
  {
    assert [] + [(e, 1)] == [(e, 1)];
    assert Expand([(e, 1)]) == Span(e, 1) + Expand([]) == [e];
    assert [e][0] == e;
    RollbackShape(s, d);
    RollbackCounters(s, d, e);
    ModOf(s.live[e], s.live[e], 0);
  }

  /** Two objects share a segment. One transaction copies it, another deletes one of the two, and both are
      undone, in that order: one holder is left in the table, so that the next delete frees bytes that are
      still in use. */
  lemma TwoUndos(s: Ledger, k: Seg)
    requires Sound(s) && k.ext < |s.bits| && s.bits[k.ext] && Entry(s.shared, k) == 2 && s.live[k.ext] >= k.len
    ensures var copy := ShareObject(Txn(s, EMPTY_DRAFT), [k]);
      && k.ext < |copy.led.bits|
      && var gone := Deleting(copy.led, k);
         && DraftInRange(gone.led, copy.draft)
         && var once := Rollback(gone.led, copy.draft);
            && DraftInRange(once, gone.draft)
            && Entry(once.shared, k) == 0 && Entry(Rollback(once, gone.draft).shared, k) == 1
  {
    var begin := Txn(s, EMPTY_DRAFT);
    ShareOne(begin, k);
    ShareKeepsLive(begin, k);
    CopyInRange(s, k);
    var copy := ShareObject(begin, [k]);
    DeletingShape(copy.led, k);
    var gone := Deleting(copy.led, k);
    RollbackShape(gone.led, copy.draft);
    assert [k][1..] == [] && copy.draft.sharedInc == [k];
    var once := Rollback(gone.led, copy.draft);
    assert Entry(once.shared, k) == EntryBack(gone.led, copy.draft, k);
    RollbackShape(once, gone.draft);
    assert Entry(Rollback(once, gone.draft).shared, k) == EntryBack(once, gone.draft, k);
  }

  /** Two drafts on one ledger: the first copies an object of one segment, the second deletes the
      original and commits, and the first is then rolled back. */
  ghost function CopyDeleteUndo(s: Ledger, k: Seg): (r: Ledger)
    requires WellFormed(s) && k.ext < |s.bits|
  {
    var copy := ShareObject(Txn(s, EMPTY_DRAFT), [k]);
    var gone := ReleaseObject(Txn(copy.led, EMPTY_DRAFT), [k]);
    if Below(gone.draft.cleared, |gone.led.bits|) then
      var led := Settle(gone.led, gone.draft.cleared);
      if DraftInRange(led, copy.draft) then Rollback(led, copy.draft) else led
    else gone.led
  }

  lemma CopyInRange(s: Ledger, k: Seg)
    requires Sound(s) && k.ext < |s.bits| && s.bits[k.ext]
    ensures var copy := ShareObject(Txn(s, EMPTY_DRAFT), [k]); DraftInRange(copy.led, copy.draft)
  {
    var begin, calls := Txn(s, EMPTY_DRAFT), [CallShare([k])];
    assert Rollbacks.Legal(begin, calls[0]) && calls[1..] == [];
    assert LegalAll(Do(begin, calls[0]), calls[1..]);
    assert DoAll(begin, calls) == DoAll(Do(begin, calls[0]), calls[1..]) == Do(begin, calls[0]);
    RollbackRestores(s, calls);
  }

  lemma CopyDeleteUndoShape(s: Ledger, k: Seg)
    requires Sound(s) && k.ext < |s.bits| && s.bits[k.ext] && k !in s.shared
    ensures var r := CopyDeleteUndo(s, k);
      r.live == s.live && r.bits == s.bits && k !in r.shared && |r.bits| == |s.bits|
  {
    var begin := Txn(s, EMPTY_DRAFT);
    ShareOne(begin, k);
    var copy := ShareObject(begin, [k]);
    ShareKeepsLive(begin, k);
    ReleaseOneOfMany(Txn(copy.led, EMPTY_DRAFT), k);
    var gone := ReleaseObject(Txn(copy.led, EMPTY_DRAFT), [k]);
    ReleaseKeepsLive(Txn(copy.led, EMPTY_DRAFT), k);
    assert Settle(gone.led, []) == gone.led;
    CopyInRange(s, k);
    UndoneShares(gone.led, copy.draft);
    UnclearAt(gone.led, []);
    UnallocateAt(gone.led, []);
    assert copy.draft.sharedInc == [k] && [k][1..] == [];
  }

  lemma ShareKeepsLive(t: Txn, k: Seg)
    requires WellFormed(t.led) && k.ext < |t.led.bits|
    ensures var r := ShareObject(t, [k]); r.led.live == t.led.live && r.led.bits == t.led.bits
  {
    SeenInRange(t.led, [k], []);
    ShareSegsFrame(t, [k]);
    RefUpFrame(ShareSegs(t, [k]), Seen([k], []));
  }

  lemma ReleaseKeepsLive(t: Txn, k: Seg)
    requires WellFormed(t.led) && k.ext < |t.led.bits| && Entry(t.led.shared, k) > 1
    ensures var r := ReleaseObject(t, [k]); r.led.live == t.led.live && r.led.bits == t.led.bits
  {
    assert [k][1..] == [];
    SeenInRange(t.led, [k], []);
    assert ReleaseSegs(t, [k]) == ReleaseSegs(ReleaseSeg(t, k), []) == ReleaseSeg(t, k);
    RefDownFrame(ReleaseSegs(t, [k]), Seen([k], []));
  }

  lemma OneSegmentHeld(st: Store, i: nat, k: Seg)
    requires StoreOk(st) && i < |st.objs| && st.objs[i] == [k] && k !in st.led.shared && k.ext < |st.led.bits|
    ensures k.len > 0 && st.led.bits[k.ext] && Holders(st.objs[i := []], k) == 0
    ensures st.led.live[k.ext] == Bytes(Keys(st.objs[i := []]), k.ext) + k.len
  {
    var e, held := k.ext, Keys(st.objs);
    assert KeyAccounts(st.led, st.objs, k) && LiveAccounts(st.led, st.objs, [], e);
    assert ObjectOk(|st.led.bits|, st.objs[i]) && k in st.objs[i];
    BytesRemove(held, k, e);
    KeysAfterDrop(st.objs, i);
    DropFirst(st.objs, i, k);
    assert st.objs[i][1..] == [];
  }

  /** Nobody holds the segment any more, but its bytes stay counted and its extent stays allocated. */
  lemma UndoneCopyLeaks(st: Store, i: nat, k: Seg)
    requires StoreOk(st) && i < |st.objs| && st.objs[i] == [k] && k !in st.led.shared && k.ext < |st.led.bits|
    ensures var r, objs := CopyDeleteUndo(st.led, k), st.objs[i := []];
      && |r.live| == |r.bits| == |st.led.bits| && r.live[k.ext] == Bytes(Keys(objs), k.ext) + k.len && k.len > 0
      && Holders(objs, k) == 0 && r.bits[k.ext]
  {
    AccountsAreSound(st.led, st.objs, []);
    OneSegmentHeld(st, i, k);
    CopyDeleteUndoShape(st.led, k);
  }

  // ---------- between the commit point and its outcome ----------

  /** A draft that releases the only segment of an extent, at its commit point. */
  function Emptied(s: Ledger, k: Seg): Txn
    requires WellFormed(s) && k.ext < |s.bits|
  {
    ReleaseObject(Txn(s, EMPTY_DRAFT), [k])
  }

  ghost predicate Sole(s: Ledger, k: Seg) {
    && Sound(s) && k.ext < |s.bits| && s.bits[k.ext] && s.pins[k.ext] == 0
    && s.shared == map[] && s.live[k.ext] == k.len > 0
  }

  lemma EmptiedShape(s: Ledger, k: Seg)
    requires Sole(s, k)
    ensures var t := Emptied(s, k);
      && DraftInRange(s, t.draft) && |t.led.bits| == |s.bits|
      && t.draft.cleared == [k.ext] && t.draft.alloc == [] && t.draft.liveDec == [(k.ext, k.len)] && t.draft.liveInc == []
      && t.led == s.(live := s.live[k.ext := 0], refcounts := t.led.refcounts)
  {
    var begin, calls := Txn(s, EMPTY_DRAFT), [CallRelease([k])];
    ReleaseUnshared(begin, k);
    assert Rollbacks.Legal(begin, calls[0]) && calls[1..] == [];
    assert LegalAll(Do(begin, calls[0]), calls[1..]);
    assert DoAll(begin, calls) == DoAll(Do(begin, calls[0]), calls[1..]) == Do(begin, calls[0]);
    RollbackRestores(s, calls);
  }

  /** Somebody else takes the extent and puts a segment there. */
  function Taken(s: Ledger, p: Seg): Ledger
    requires WellFormed(s) && p.ext < |s.bits|
  {
    AddObject(Allocate(Txn(s, EMPTY_DRAFT), [p.ext], {}, [(p.ext, 1)]), [p]).led
  }

  lemma TakenShape(s: Ledger, p: Seg)
    requires WellFormed(s) && p.ext < |s.bits| && s.live[p.ext] + p.len < U32
    ensures var r := Taken(s, p);
      |r.bits| == |s.bits| && r.bits[p.ext] && r.live == s.live[p.ext := s.live[p.ext] + p.len]
  {
    assert Isolate(s, {}) == s;
    TakeAllAt(s, [p.ext]);
    assert [p.ext][0] == p.ext;
    AddOne(Allocate(Txn(s, EMPTY_DRAFT), [p.ext], {}, [(p.ext, 1)]), p);
  }

  lemma RolledBackOver(s: Ledger, d: Staged, k: Seg)
    requires WellFormed(s) && DraftInRange(s, d) && k.ext < |s.bits| && s.bits[k.ext] && Ids(d) == []
    requires d.liveDec == [(k.ext, k.len)] && d.liveInc == [] && s.live[k.ext] + k.len < U32
    ensures var r := Rollback(s, d); r.bits[k.ext] && r.live[k.ext] == s.live[k.ext] + k.len
  {
    UnclearAt(s, d.cleared);
    UnallocateAt(Unclear(s, d.cleared), Ids(d));
    ShiftLiveAt(s.live, d.liveDec, true, k.ext);
  }

  /** An extent that a transaction has emptied is anybody's from its commit point on, before it is known
      whether it commits. If it fails after another has taken the extent, the rollback leaves two
      objects in one extent, even in the same place. */
  lemma FreedBeforeOutcome(s: Ledger, k: Seg, p: Seg)
    requires Sole(s, k) && p.ext == k.ext && k.len + p.len < U32
    ensures var t := Emptied(s, k);
      && Below(t.draft.cleared, |t.led.bits|)
      && var early := Settle(t.led, t.draft.cleared);
         && MayTake(early, [p.ext], {})
         && var taken := Taken(early, p);
            && DraftInRange(taken, t.draft)
            && var r := Rollback(taken, t.draft);
               r.bits[p.ext] && r.live[p.ext] == k.len + p.len
  {
    EmptiedShape(s, k);
    var t := Emptied(s, k);
    SettleAt(t.led, t.draft.cleared);
    var early := Settle(t.led, t.draft.cleared);
    assert k.ext in [k.ext];
    TakenShape(early, p);
    RolledBackOver(Taken(early, p), t.draft, k);
  }
}
