/** Space accounting while several transactions are open.

    Each transaction carries its own draft and its own notes; their acts, commits and rollbacks and the
    pins of readers come in any order. What one has noted counts as live bytes for all the others. */
module Interleavings {
  import opened Ledgers
  import opened Rollbacks
  import opened Holdings
  import opened Runs
  import opened Undoing

  /** An open transaction. `put` says that it has turned its notes into an object, `settled` that it has
      passed its commit point, behind which it only commits or fails; `mine` are the objects
      that it has put or copied, `gone` those of others that it has deleted; `counted` are the segments
      whose bytes its puts have counted, `taken` those whose bytes its deletes have taken off. */
  datatype Thread = Thread(draft: Staged, put: bool, settled: bool, mine: set<nat>, gone: map<nat, Object>,
                           counted: seq<Seg>, taken: seq<Seg>)

  const IDLE := Thread(EMPTY_DRAFT, false, false, {}, map[], [], [])

  datatype Shared = Shared(led: Ledger, objs: seq<Object>, threads: seq<Thread>)

  function NotesOf(th: Thread): seq<(nat, nat)> {
    if th.put then [] else th.draft.inflight
  }

  function Notes(threads: seq<Thread>): seq<(nat, nat)> {
    if threads == [] then [] else NotesOf(threads[0]) + Notes(threads[1..])
  }

  /** The notes of everybody but thread `i`. */
  function Others(g: Shared, i: nat): seq<(nat, nat)>
    requires i < |g.threads|
  {
    Notes(g.threads[i := IDLE])
  }

  function Own(g: Shared, i: nat): World
    requires i < |g.threads|
  {
    World(Txn(g.led, g.threads[i].draft), g.objs, g.threads[i].put)
  }

  /** The objects as they are without what the thread has done to them. */
  function Back(objs: seq<Object>, th: Thread): (r: seq<Object>)
    ensures |r| == |objs|
  {
    seq(|objs|, j requires 0 <= j < |objs| =>
      if j in th.mine then [] else if j in th.gone then th.gone[j] else objs[j])
  }

  /** The segments of a list that have just one holder, in order. */
  function Singles(objs: seq<Object>, segs: seq<Seg>): seq<Seg> {
    if segs == [] then [] else (if Holders(objs, segs[0]) == 1 then [segs[0]] else []) + Singles(objs, segs[1..])
  }

  /** The thread after one of its acts. */
  function Acted(th: Thread, objs: seq<Object>, a: Runs.Act, w: World): Thread
    requires a.ActDelete? ==> a.i < |objs|
  {
    var t := th.(draft := w.txn.draft, put := w.put);
    match a
    case ActPut(segs) => t.(mine := th.mine + {|objs|}, counted := th.counted + segs)
    case ActCopy(_) => t.(mine := th.mine + {|objs|})
    case ActDelete(j) =>
      var u := t.(taken := th.taken + Singles(objs, objs[j]));
      if j in th.mine then u.(mine := th.mine - {j}) else u.(gone := th.gone[j := objs[j]])
    case _ => t
  }

  // ---------- the invariant ----------

  ghost predicate Accounted(g: Shared) {
    Accounts(g.led, g.objs, Notes(g.threads))
  }

  /** Two transactions have not put, copied or deleted the same object. */
  ghost predicate Apart(a: Thread, b: Thread) {
    a.mine !! b.mine && a.mine !! b.gone.Keys && a.gone.Keys !! b.mine && a.gone.Keys !! b.gone.Keys
  }

  /** What the thread names exists, and what it has deleted is empty. */
  ghost predicate InPlace(n: nat, objs: seq<Object>, th: Thread) {
    && (forall j :: j in th.mine ==> j < |objs| && j !in th.gone)
    && (forall j :: j in th.gone ==> j < |objs| && objs[j] == [] && ObjectOk(n, th.gone[j]))
  }

  /** The undo lists of the draft say what it has done to an extent. */
  ghost predicate Recorded(objs: seq<Object>, th: Thread, e: nat) {
    && Owed(th.draft, e) == SegSum(th.taken, e) - SegSum(th.counted, e) - SumFor(NotesOf(th), e)
    && RefsOwed(th.draft, e) == Touching(Back(objs, th), e) - Touching(objs, e)
  }

  /** What the thread names exists. */
  ghost predicate ThreadFormed(led: Ledger, objs: seq<Object>, th: Thread)
    requires WellFormed(led)
  {
    DraftInRange(led, th.draft) && InPlace(|led.bits|, objs, th)
  }

  ghost predicate ThreadOk(led: Ledger, objs: seq<Object>, th: Thread)
    requires WellFormed(led)
  {
    ThreadFormed(led, objs, th) && forall e :: 0 <= e < |led.bits| ==> Recorded(objs, th, e)
  }

  /** Ledger, objects and threads are well formed; nothing is said about the accounting. */
  ghost predicate Formed(g: Shared) {
    && WellFormed(g.led) && ObjectsOk(|g.led.bits|, g.objs)
    && (forall i :: 0 <= i < |g.threads| ==> ThreadFormed(g.led, g.objs, g.threads[i]))
    && forall i, j :: 0 <= i < j < |g.threads| ==> Apart(g.threads[i], g.threads[j])
  }

  ghost predicate Ok(g: Shared) {
    Formed(g) && Accounted(g) && forall i :: 0 <= i < |g.threads| ==> ThreadOk(g.led, g.objs, g.threads[i])
  }

  // ---------- events ----------

  datatype Event =
    | Act(i: nat, a: Runs.Act)
    /** The commit point: what the transaction has emptied is settled. */
    | SettlePoint(i: nat)
    | Succeed(i: nat)
    /** The transaction fails, before its commit point or behind it. */
    | Undo(i: nat)
    | PinExtents(ids: seq<nat>)
    | UnpinExtents(ids: seq<nat>)
    /** Somebody frees an extent that nothing reaches, in a transaction of its own. */
    | FreeLeak(e: nat)

  /** The counters have room for the notes of the others as well. */
  ghost predicate FitsBeside(w: World, a: Runs.Act, others: seq<(nat, nat)>) {
    match a
    case ActPut(segs) => Fits(|w.txn.led.bits|, Keys(w.objs + [segs]), others)
    case ActNote(seg) => Fits(|w.txn.led.bits|, Keys(w.objs), Noted(w) + [(seg.ext, seg.len)] + others)
    case _ => true
  }

  /** A transaction deletes no object that another open one has put, copied or deleted, nor one twice. */
  ghost predicate Deletable(g: Shared, i: nat, j: nat)
    requires i < |g.threads|
  {
    && j !in g.threads[i].gone
    && forall x :: 0 <= x < |g.threads| && x != i ==> j !in g.threads[x].mine && j !in g.threads[x].gone
  }

  ghost predicate Legal(g: Shared, v: Event)
    requires Formed(g)
  {
    match v
    case Act(i, a) =>
      && i < |g.threads| && !g.threads[i].settled
      && ActLegal(Own(g, i), a) && FitsBeside(Own(g, i), a, Others(g, i))
      && (a.ActDelete? ==> Deletable(g, i, a.i))
    case SettlePoint(i) => i < |g.threads|
    case Succeed(i) => i < |g.threads| && g.threads[i].settled && NotesOf(g.threads[i]) == []
    case Undo(i) => i < |g.threads|
    case PinExtents(_) => true
    case UnpinExtents(ids) => UnpinLegal(g.led, ids)
    case FreeLeak(e) => e < |g.led.bits| && Touching(g.objs, e) == 0 && SumFor(Notes(g.threads), e) == 0
  }

  ghost function After(g: Shared, v: Event): Shared
    requires Formed(g) && Legal(g, v)
  {
    match v
    case Act(i, a) =>
      var w := Perform(Own(g, i), a);
      Shared(w.txn.led, w.objs, g.threads[i := Acted(g.threads[i], g.objs, a, w)])
    case SettlePoint(i) =>
      var th := g.threads[i];
      g.(led := Settle(g.led, th.draft.cleared), threads := g.threads[i := th.(settled := true)])
    case Succeed(i) => g.(threads := g.threads[i := IDLE])
    case Undo(i) =>
      var th := g.threads[i];
      Shared(Rollback(g.led, th.draft), Back(g.objs, th), g.threads[i := IDLE])
    case PinExtents(ids) => g.(led := PinAll(g.led, ids))
    case UnpinExtents(ids) => g.(led := UnpinAll(g.led, ids))
    case FreeLeak(e) =>
      var t := ReleaseLeaked(Txn(g.led, EMPTY_DRAFT), e);
      g.(led := Settle(t.led, t.draft.cleared))
  }

  // ---------- notes ----------

  lemma {:induction false} NotesSplit(threads: seq<Thread>, i: nat, th: Thread, e: nat)
    requires i < |threads|
    ensures SumFor(Notes(threads[i := th]), e) == SumFor(NotesOf(th), e) + SumFor(Notes(threads[i := IDLE]), e)
    decreases |threads|
  {
    var a, b := threads[i := th], threads[i := IDLE];
    SumForConcat(NotesOf(a[0]), Notes(a[1..]), e);
    SumForConcat(NotesOf(b[0]), Notes(b[1..]), e);
    if i == 0 {
      assert a[1..] == b[1..];
    } else {
      assert a[1..] == threads[1..][i - 1 := th] && b[1..] == threads[1..][i - 1 := IDLE];
      NotesSplit(threads[1..], i - 1, th, e);
    }
  }

  /** The accounting looks at notes extent by extent. */
  lemma SameNotes(s: Ledger, objs: seq<Object>, a: seq<(nat, nat)>, b: seq<(nat, nat)>)
    requires Accounts(s, objs, a) && forall e :: SumFor(a, e) == SumFor(b, e)
    ensures Accounts(s, objs, b)
  {
    forall e | 0 <= e < |s.bits| ensures LiveAccounts(s, objs, b, e) {
      assert LiveAccounts(s, objs, a, e);
    }
  }

  lemma OwnNotes(threads: seq<Thread>, i: nat, e: nat)
    requires i < |threads|
    ensures SumFor(Notes(threads), e) == SumFor(NotesOf(threads[i]) + Notes(threads[i := IDLE]), e)
    ensures SumFor(Notes(threads), e) == SumFor(NotesOf(threads[i]), e) + SumFor(Notes(threads[i := IDLE]), e)
  {
    assert threads[i := threads[i]] == threads;
    NotesSplit(threads, i, threads[i], e);
    SumForConcat(NotesOf(threads[i]), Notes(threads[i := IDLE]), e);
  }

  lemma OwnAccounts(g: Shared, i: nat)
    requires Accounted(g) && i < |g.threads|
    ensures Accounts(g.led, g.objs, Noted(Own(g, i)) + Others(g, i))
  {
    forall e ensures SumFor(Notes(g.threads), e) == SumFor(Noted(Own(g, i)) + Others(g, i), e) {
      OwnNotes(g.threads, i, e);
    }
    SameNotes(g.led, g.objs, Notes(g.threads), Noted(Own(g, i)) + Others(g, i));
  }

  lemma SharedAccounts(s: Ledger, objs: seq<Object>, threads: seq<Thread>, i: nat, th: Thread)
    requires i < |threads| && Accounts(s, objs, NotesOf(th) + Notes(threads[i := IDLE]))
    ensures Accounts(s, objs, Notes(threads[i := th]))
  {
    var split, joined := NotesOf(th) + Notes(threads[i := IDLE]), Notes(threads[i := th]);
    forall e ensures SumFor(split, e) == SumFor(joined, e) {
      NotesSplit(threads, i, th, e);
      SumForConcat(NotesOf(th), Notes(threads[i := IDLE]), e);
    }
    SameNotes(s, objs, split, joined);
  }

  // ---------- acts keep the accounting ----------

  /** An act of one transaction, beside the notes of the others. */
  lemma ActBeside(w: World, a: Runs.Act, others: seq<(nat, nat)>)
    requires Accounts(w.txn.led, w.objs, Noted(w) + others) && ActLegal(w, a) && FitsBeside(w, a, others)
    ensures var r := Perform(w, a); Accounts(r.txn.led, r.objs, Noted(r) + others)
  {
    match a
    case ActAllocate(ids, skipped, ranges) =>
      AllocateAccounts(w.txn, w.objs, Noted(w) + others, CallAllocate(ids, skipped, ranges));
    case ActNoSpace(ids, skipped) =>
      TakeAllAt(Isolate(w.txn.led, skipped), ids);
      AllocateAccounts(w.txn, w.objs, Noted(w) + others, CallNoSpace(ids, skipped));
    case ActNote(seg) => NoteBeside(w, seg, others);
    case ActPut(segs) =>
      PutAccounts(w, segs, others);
      assert [] + others == others;
    case ActCopy(segs) =>
      InRangeOk(w.txn.led, segs);
      CopyAccounts(w.txn, w.objs, segs, Noted(w) + others);
      CopyKeepsNotes(w.txn, segs);
    case ActDelete(i) =>
      InRangeOk(w.txn.led, w.objs[i]);
      DeleteAccounts(w.txn, w.objs, i, Noted(w) + others);
      DeleteKeepsNotes(w.txn, w.objs[i]);
  }

  lemma NoteBeside(w: World, seg: Seg, others: seq<(nat, nat)>)
    requires Accounts(w.txn.led, w.objs, Noted(w) + others)
    requires ActLegal(w, ActNote(seg)) && FitsBeside(w, ActNote(seg), others)
    ensures var r := Perform(w, ActNote(seg)); Accounts(r.txn.led, r.objs, Noted(r) + others)
  {
    var key := (seg.ext, seg.len);
    var before, after := Noted(w) + others + [key], Noted(w) + [key] + others;
    forall e ensures SumFor(before, e) == SumFor(after, e) {
      SumForConcat(Noted(w) + others, [key], e);
      SumForConcat(Noted(w), others, e);
      SumForConcat(Noted(w) + [key], others, e);
      SumForConcat(Noted(w), [key], e);
    }
    NoteAccounts(w.txn, w.objs, Noted(w) + others, seg);
    SameNotes(NoteInflight(w.txn, seg).led, w.objs, before, after);
  }

  // ---------- acts are recorded ----------

  lemma {:induction false} AddSegsRecord(t: Txn, pre: multiset<(nat, nat)>, segs: seq<Seg>, e: nat)
    requires WellFormed(t.led) && InRange(t.led, segs) && pre <= multiset(Amounts(segs))
    ensures SumFor(AddSegs(t, pre, segs).draft.liveInc, e) + NoteSum(pre, e) == SumFor(t.draft.liveInc, e) + SegSum(segs, e)
    decreases |segs|
  {
    if segs == [] {
      assert pre == multiset{};
    } else {
      var key := (segs[0].ext, segs[0].len);
      AmountsTail(segs);
      if key in pre {
        NoteSumRemove(pre, key, e);
        AddSegsRecord(t, pre - multiset{key}, segs[1..], e);
      } else {
        SumForAppend(t.draft.liveInc, key, e);
        AddSegsRecord(GainLive(t, key), pre, segs[1..], e);
      }
    }
  }

  lemma {:induction false} RefUpRecord(t: Txn, ids: seq<nat>, e: nat)
    requires WellFormed(t.led) && Below(ids, |t.led.bits|) && Distinct(ids)
    ensures Count(RefUp(t, ids).draft.refcountInc, e) == Count(t.draft.refcountInc, e) + (if e in ids then 1 else 0)
    decreases |ids|
  {
    if ids != [] {
      CountAppend(t.draft.refcountInc, ids[0], e);
      RefUpRecord(RefUpOne(t, ids[0]), ids[1..], e);
    }
  }

  lemma {:induction false} RefDownRecord(t: Txn, ids: seq<nat>, e: nat)
    requires WellFormed(t.led) && Below(ids, |t.led.bits|) && Distinct(ids) && e < |t.led.bits|
    requires e in ids ==> t.led.refcounts[e] > 0
    ensures Count(RefDown(t, ids).draft.refcountDec, e) == Count(t.draft.refcountDec, e) + (if e in ids then 1 else 0)
    decreases |ids|
  {
    if ids != [] {
      var x := ids[0];
      CountAppend(t.draft.refcountDec, x, e);
      RefDownRecord(if t.led.refcounts[x] == 0 then t
                    else Txn(t.led.(refcounts := t.led.refcounts[x := t.led.refcounts[x] - 1]),
                             t.draft.(refcountDec := t.draft.refcountDec + [x])), ids[1..], e);
    }
  }

  lemma {:induction false} SegSumConcat(a: seq<Seg>, b: seq<Seg>, e: nat)
    ensures SegSum(a + b, e) == SegSum(a, e) + SegSum(b, e)
  {
    if a == [] {
      assert a + b == b;
    } else {
      assert (a + b)[1..] == a[1..] + b;
      SegSumConcat(a[1..], b, e);
    }
  }

  lemma {:induction false} SinglesAre(objs: seq<Object>, segs: seq<Seg>)
    requires Distinct(segs)
    ensures Distinct(Singles(objs, segs))
    ensures forall k :: k in Singles(objs, segs) <==> k in segs && Holders(objs, k) == 1
    decreases |segs|
  {
    if segs != [] {
      SinglesAre(objs, segs[1..]);
    }
  }

  /** An extent loses with a deleted object the bytes of the segments that nobody else holds. */
  lemma SinglesSum(objs: seq<Object>, j: nat, e: nat)
    requires j < |objs| && Distinct(objs[j])
    ensures Bytes(Keys(objs), e) == Bytes(Keys(objs[j := []]), e) + SegSum(Singles(objs, objs[j]), e)
  {
    var after, ones := objs[j := []], Singles(objs, objs[j]);
    SinglesAre(objs, objs[j]);
    forall k
      ensures k in Keys(objs) <==> k in Keys(after) || k in ones
      ensures !(k in Keys(after) && k in ones)
    {
      HoldersUpdate(objs, j, [], k);
      DistinctCount(objs[j], k);
      HeldIffKey(objs, k);
      HeldIffKey(after, k);
    }
    assert Keys(objs) == Keys(after) + set k | k in ones;
    BytesAddAll(Keys(after), ones, e);
  }

  /** What the undo lists of a draft record on an extent. */
  ghost predicate Records(d: Staged, f: Staged, gained: int, referred: int, e: nat) {
    Owed(f, e) == Owed(d, e) - gained && RefsOwed(f, e) == RefsOwed(d, e) - referred
  }

  lemma PutRecord(w: World, segs: seq<Seg>, others: seq<(nat, nat)>, e: nat)
    requires WellFormed(w.txn.led) && PutLegal(w, segs, others) && e < |w.txn.led.bits|
    ensures Records(w.txn.draft, AddObject(w.txn, segs).draft,
                    SegSum(segs, e) - SumFor(w.txn.draft.inflight, e), if Touches(segs, e) then 1 else 0, e)
  {
    var t := w.txn;
    var pre := multiset(t.draft.inflight);
    SeenInRange(t.led, segs, []);
    SeenTouches(segs, e);
    AddSegsFrame(t, pre, segs);
    AddSegsRecord(t, pre, segs, e);
    NoteSumOfSeq(t.draft.inflight, e);
    RefUpRecord(AddSegs(t, pre, segs), Seen(segs, []), e);
    RefUpFrame(AddSegs(t, pre, segs), Seen(segs, []));
  }

  lemma CopyRecord(t: Txn, segs: seq<Seg>, e: nat)
    requires WellFormed(t.led) && InRange(t.led, segs) && e < |t.led.bits|
    ensures Records(t.draft, ShareObject(t, segs).draft, 0, if Touches(segs, e) then 1 else 0, e)
  {
    SeenInRange(t.led, segs, []);
    SeenTouches(segs, e);
    ShareSegsFrame(t, segs);
    RefUpRecord(ShareSegs(t, segs), Seen(segs, []), e);
    RefUpFrame(ShareSegs(t, segs), Seen(segs, []));
  }

  lemma {:induction false} ReleaseSums(t: Txn, segs: seq<Seg>, e: nat)
    requires WellFormed(t.led) && InRange(t.led, segs) && e < |t.led.bits|
    ensures var r := ReleaseSegs(t, segs);
      && SumFor(r.draft.liveDec, e) + r.led.live[e] == SumFor(t.draft.liveDec, e) + t.led.live[e]
      && r.draft.liveInc == t.draft.liveInc && r.draft.refcountInc == t.draft.refcountInc
      && r.draft.refcountDec == t.draft.refcountDec && r.draft.inflight == t.draft.inflight
    decreases |segs|
  {
    if segs != [] {
      var x := segs[0];
      SumForAppend(t.draft.liveDec, (x.ext, x.len), e);
      ReleaseSums(ReleaseSeg(t, x), segs[1..], e);
    }
  }

  lemma DeleteRecord(t: Txn, objs: seq<Object>, j: nat, noted: seq<(nat, nat)>, e: nat)
    requires Accounts(t.led, objs, noted) && j < |objs| && InRange(t.led, objs[j]) && e < |t.led.bits|
    ensures Records(t.draft, ReleaseObject(t, objs[j]).draft, 0 - SegSum(Singles(objs, objs[j]), e) as int,
                    if Touches(objs[j], e) then -1 else 0, e)
  {
    assert ObjectOk(|t.led.bits|, objs[j]);
    SeenInRange(t.led, objs[j], []);
    SeenTouches(objs[j], e);
    var mid, ids := ReleaseSegs(t, objs[j]), Seen(objs[j], []);
    ReleaseSums(t, objs[j], e);
    ReleaseKeepsRefs(t, objs[j]);
    DeleteSpace(t, objs, j, noted);
    RefDownFrame(mid, ids);
    assert LiveAccounts(t.led, objs, noted, e) && RefAccounts(t.led, objs, e);
    assert LiveAccounts(ReleaseObject(t, objs[j]).led, objs[j := []], noted, e);
    SinglesSum(objs, j, e);
    TouchingUpdate(objs, j, [], e);
    RefDownRecord(mid, ids, e);
  }

  // ---------- one thread, after its own act ----------

  lemma BackAppend(objs: seq<Object>, o: Object, th: Thread, own: bool, e: nat)
    requires forall j :: j in th.mine || j in th.gone ==> j < |objs|
    ensures var u := if own then th.(mine := th.mine + {|objs|}) else th;
      Touching(Back(objs + [o], u), e) == Touching(Back(objs, th), e) + (if !own && Touches(o, e) then 1 else 0)
  {
    var u := if own then th.(mine := th.mine + {|objs|}) else th;
    assert Back(objs + [o], u) == Back(objs, th) + [if own then [] else o];
    TouchingAppend(Back(objs, th), if own then [] else o, e);
  }

  /** What an act does to the books of its own thread, on one extent. */
  lemma ActRecorded(w: World, th: Thread, a: Runs.Act, others: seq<(nat, nat)>, e: nat)
    requires Accounts(w.txn.led, w.objs, Noted(w) + others) && ActLegal(w, a) && e < |w.txn.led.bits|
    requires th.draft == w.txn.draft && th.put == w.put && InPlace(|w.txn.led.bits|, w.objs, th)
    requires Recorded(w.objs, th, e) && (a.ActDelete? ==> a.i !in th.gone)
    ensures var r := Perform(w, a); Recorded(r.objs, Acted(th, w.objs, a, r), e)
  {
    match a
    case ActAllocate(_, _, _) =>
      assert Back(w.objs, Acted(th, w.objs, a, Perform(w, a))) == Back(w.objs, th);
    case ActNoSpace(_, _) =>
      assert Back(w.objs, Acted(th, w.objs, a, Perform(w, a))) == Back(w.objs, th);
    case ActNote(seg) =>
      SumForAppend(w.txn.draft.liveInc, (seg.ext, seg.len), e);
      SumForAppend(w.txn.draft.inflight, (seg.ext, seg.len), e);
      assert Back(w.objs, Acted(th, w.objs, a, Perform(w, a))) == Back(w.objs, th);
    case ActPut(segs) => PutRecorded(w, th, segs, e);
    case ActCopy(segs) => CopyRecorded(w, th, segs, e);
    case ActDelete(j) => DeleteRecorded(w, th, j, others, e);
  }

  lemma PutRecorded(w: World, th: Thread, segs: seq<Seg>, e: nat)
    requires WellFormed(w.txn.led) && ObjectsOk(|w.txn.led.bits|, w.objs) && ActLegal(w, ActPut(segs)) && e < |w.txn.led.bits|
    requires th.draft == w.txn.draft && th.put == w.put && InPlace(|w.txn.led.bits|, w.objs, th) && Recorded(w.objs, th, e)
    ensures var r := Perform(w, ActPut(segs)); Recorded(r.objs, Acted(th, w.objs, ActPut(segs), r), e)
  {
    var r := Perform(w, ActPut(segs));
    var u := Acted(th, w.objs, ActPut(segs), r);
    PutRecord(w, segs, [], e);
    SegSumConcat(th.counted, segs, e);
    TouchingAppend(w.objs, segs, e);
    BackAppend(w.objs, segs, th, true, e);
    assert Back(r.objs, u) == Back(w.objs + [segs], th.(mine := th.mine + {|w.objs|}));
  }

  lemma CopyRecorded(w: World, th: Thread, segs: seq<Seg>, e: nat)
    requires WellFormed(w.txn.led) && ObjectsOk(|w.txn.led.bits|, w.objs) && ActLegal(w, ActCopy(segs)) && e < |w.txn.led.bits|
    requires th.draft == w.txn.draft && th.put == w.put && InPlace(|w.txn.led.bits|, w.objs, th) && Recorded(w.objs, th, e)
    ensures var r := Perform(w, ActCopy(segs)); Recorded(r.objs, Acted(th, w.objs, ActCopy(segs), r), e)
  {
    var r := Perform(w, ActCopy(segs));
    var u := Acted(th, w.objs, ActCopy(segs), r);
    InRangeOk(w.txn.led, segs);
    CopyRecord(w.txn, segs, e);
    CopyKeepsNotes(w.txn, segs);
    TouchingAppend(w.objs, segs, e);
    BackAppend(w.objs, segs, th, true, e);
    assert Back(r.objs, u) == Back(w.objs + [segs], th.(mine := th.mine + {|w.objs|}));
  }

  /** Without what the thread has done, a deleted object is there, and one of its own is not. */
  lemma DeleteBack(objs: seq<Object>, th: Thread, j: nat, u: Thread)
    requires j < |objs| && j !in th.gone
    requires u.mine == th.mine - {j} && u.gone == if j in th.mine then th.gone else th.gone[j := objs[j]]
    ensures Back(objs[j := []], u) == Back(objs, th)
  {
  }

  lemma DeleteActed(w: World, th: Thread, j: nat)
    requires WellFormed(w.txn.led) && ObjectsOk(|w.txn.led.bits|, w.objs) && ActLegal(w, ActDelete(j))
    requires th.draft == w.txn.draft && th.put == w.put
    ensures InRange(w.txn.led, w.objs[j])
    ensures var u := Acted(th, w.objs, ActDelete(j), Perform(w, ActDelete(j)));
      && u.draft == ReleaseObject(w.txn, w.objs[j]).draft && NotesOf(u) == NotesOf(th)
      && u.taken == th.taken + Singles(w.objs, w.objs[j]) && u.counted == th.counted
  {
    InRangeOk(w.txn.led, w.objs[j]);
    DeleteKeepsNotes(w.txn, w.objs[j]);
  }

  lemma DeleteDraft(w: World, th: Thread, j: nat, others: seq<(nat, nat)>, e: nat)
    requires Accounts(w.txn.led, w.objs, Noted(w) + others) && ActLegal(w, ActDelete(j)) && e < |w.txn.led.bits|
    requires th.draft == w.txn.draft && th.put == w.put && Recorded(w.objs, th, e)
    ensures var u := Acted(th, w.objs, ActDelete(j), Perform(w, ActDelete(j)));
      && Owed(u.draft, e) == SegSum(u.taken, e) - SegSum(u.counted, e) - SumFor(NotesOf(u), e)
      && RefsOwed(u.draft, e) == RefsOwed(th.draft, e) + (if Touches(w.objs[j], e) then 1 else 0)
  {
    DeleteActed(w, th, j);
    DeleteRecord(w.txn, w.objs, j, Noted(w) + others, e);
    SegSumConcat(th.taken, Singles(w.objs, w.objs[j]), e);
  }

  lemma DeleteRecorded(w: World, th: Thread, j: nat, others: seq<(nat, nat)>, e: nat)
    requires Accounts(w.txn.led, w.objs, Noted(w) + others) && ActLegal(w, ActDelete(j)) && e < |w.txn.led.bits|
    requires th.draft == w.txn.draft && th.put == w.put && Recorded(w.objs, th, e) && j !in th.gone
    ensures var r := Perform(w, ActDelete(j)); Recorded(r.objs, Acted(th, w.objs, ActDelete(j), r), e)
  {
    var u := Acted(th, w.objs, ActDelete(j), Perform(w, ActDelete(j)));
    DeleteDraft(w, th, j, others, e);
    DeleteTouching(w.objs, th, j, u, e);
  }

  lemma DeleteTouching(objs: seq<Object>, th: Thread, j: nat, u: Thread, e: nat)
    requires j < |objs| && j !in th.gone
    requires u.mine == (if j in th.mine then th.mine - {j} else th.mine)
    requires u.gone == if j in th.mine then th.gone else th.gone[j := objs[j]]
    ensures Touching(Back(objs[j := []], u), e) - Touching(objs[j := []], e) ==
      Touching(Back(objs, th), e) - Touching(objs, e) + (if Touches(objs[j], e) then 1 else 0)
  {
    assert u.mine == th.mine - {j};
    TouchingUpdate(objs, j, [], e);
    DeleteBack(objs, th, j, u);
    assert !Touches([], e);
  }

  lemma ActInPlace(w: World, th: Thread, a: Runs.Act)
    requires WellFormed(w.txn.led) && ObjectsOk(|w.txn.led.bits|, w.objs) && ActLegal(w, a)
    requires InPlace(|w.txn.led.bits|, w.objs, th) && (a.ActDelete? ==> a.i !in th.gone)
    ensures var r := Perform(w, a); InPlace(|w.txn.led.bits|, r.objs, Acted(th, w.objs, a, r))
  {
  }

  lemma IdsStayBelow(d: Staged, ids: seq<nat>, ranges: seq<(nat, nat)>, n: nat)
    requires Below(Ids(d), n) && Below(ids, n) && multiset(Expand(ranges)) == multiset(ids)
    ensures Below(Ids(d.(alloc := d.alloc + ranges)), n)
  {
    var all := Ids(d.(alloc := d.alloc + ranges));
    IdsAfter(d, ids, ranges);
    forall i | 0 <= i < |all| ensures all[i] < n {
      assert all[i] in all;
    }
  }

  lemma ActInRange(w: World, a: Runs.Act)
    requires WellFormed(w.txn.led) && ObjectsOk(|w.txn.led.bits|, w.objs) && ActLegal(w, a)
    requires DraftInRange(w.txn.led, w.txn.draft)
    ensures var r := Perform(w, a); |r.txn.led.bits| == |w.txn.led.bits| && DraftInRange(r.txn.led, r.txn.draft)
  {
    var t := w.txn;
    match a
    case ActAllocate(ids, _, ranges) => IdsStayBelow(t.draft, ids, ranges, |t.led.bits|);
    case ActNoSpace(_, _) =>
    case ActNote(_) =>
    case ActPut(segs) =>
      SeenInRange(t.led, segs, []);
      AddSegsFrame(t, multiset(t.draft.inflight), segs);
      AddSegsRange(t, multiset(t.draft.inflight), segs);
      RefUpRange(AddSegs(t, multiset(t.draft.inflight), segs), Seen(segs, []));
    case ActCopy(segs) =>
      InRangeOk(t.led, segs);
      SeenInRange(t.led, segs, []);
      ShareSegsFrame(t, segs);
      RefUpRange(ShareSegs(t, segs), Seen(segs, []));
    case ActDelete(j) =>
      InRangeOk(t.led, w.objs[j]);
      SeenInRange(t.led, w.objs[j], []);
      ReleaseSegsFrame(t, w.objs[j]);
      RefDownRange(ReleaseSegs(t, w.objs[j]), Seen(w.objs[j], []));
  }

  // ---------- the other threads ----------

  /** The objects after an act of somebody who has nothing to do with the named places. */
  ghost predicate Elsewhere(objs: seq<Object>, objs': seq<Object>, th: Thread) {
    || objs' == objs
    || (exists o :: objs' == objs + [o])
    || exists j :: 0 <= j < |objs| && j !in th.mine && j !in th.gone && objs' == objs[j := []]
  }

  lemma ElsewhereKeeps(n: nat, objs: seq<Object>, objs': seq<Object>, th: Thread)
    requires InPlace(n, objs, th) && Elsewhere(objs, objs', th)
    ensures InPlace(n, objs', th)
    ensures forall e :: Touching(Back(objs', th), e) - Touching(objs', e) == Touching(Back(objs, th), e) - Touching(objs, e)
  {
    forall e ensures Touching(Back(objs', th), e) - Touching(objs', e) == Touching(Back(objs, th), e) - Touching(objs, e) {
      if objs' != objs {
        if o :| objs' == objs + [o] {
          BackAppend(objs, o, th, false, e);
          TouchingAppend(objs, o, e);
        } else {
          var j :| 0 <= j < |objs| && j !in th.mine && j !in th.gone && objs' == objs[j := []];
          assert Back(objs', th) == Back(objs, th)[j := []] && Back(objs, th)[j] == objs[j];
          TouchingUpdate(objs, j, [], e);
          TouchingUpdate(Back(objs, th), j, [], e);
        }
      }
    }
  }

  lemma OtherStays(s: Ledger, r: Ledger, objs: seq<Object>, objs': seq<Object>, th: Thread)
    requires WellFormed(s) && WellFormed(r) && |r.bits| == |s.bits| && ThreadOk(s, objs, th) && Elsewhere(objs, objs', th)
    ensures ThreadOk(r, objs', th)
  {
    ElsewhereKeeps(|s.bits|, objs, objs', th);
    forall e | 0 <= e < |r.bits| ensures Recorded(objs', th, e) {
      assert Recorded(objs, th, e);
    }
  }

  lemma {:induction false} TouchingParallel(p: seq<Object>, q: seq<Object>, r: seq<Object>, s: seq<Object>, e: nat)
    requires |p| == |q| == |r| == |s|
    requires forall j :: 0 <= j < |p| ==> (p[j] == q[j] && r[j] == s[j]) || (p[j] == r[j] && q[j] == s[j])
    ensures Touching(p, e) - Touching(q, e) == Touching(r, e) - Touching(s, e)
    decreases |p|
  {
    if p != [] {
      TouchingParallel(p[1..], q[1..], r[1..], s[1..], e);
    }
  }

  /** Undoing one transaction leaves the record of another as it was. */
  lemma UndoElsewhere(n: nat, objs: seq<Object>, a: Thread, b: Thread)
    requires InPlace(n, objs, a) && InPlace(n, objs, b) && Apart(a, b)
    ensures var after := Back(objs, a);
      && InPlace(n, after, b)
      && forall e :: Touching(Back(after, b), e) - Touching(after, e) == Touching(Back(objs, b), e) - Touching(objs, e)
  {
    var after := Back(objs, a);
    forall e
      ensures Touching(Back(after, b), e) - Touching(after, e) == Touching(Back(objs, b), e) - Touching(objs, e)
    {
      TouchingParallel(Back(after, b), after, Back(objs, b), objs, e);
    }
  }

  lemma UndoOther(s: Ledger, r: Ledger, objs: seq<Object>, a: Thread, b: Thread)
    requires WellFormed(s) && WellFormed(r) && |r.bits| == |s.bits| && ThreadOk(s, objs, b)
    requires InPlace(|s.bits|, objs, a) && Apart(a, b)
    ensures ThreadOk(r, Back(objs, a), b)
  {
    UndoElsewhere(|s.bits|, objs, a, b);
    forall e | 0 <= e < |r.bits| ensures Recorded(Back(objs, a), b, e) {
      assert Recorded(objs, b, e);
    }
  }

  lemma IdleOk(s: Ledger, objs: seq<Object>)
    requires WellFormed(s)
    ensures ThreadOk(s, objs, IDLE)
  {
    assert Back(objs, IDLE) == objs;
  }

  // ---------- one event ----------

  lemma ElsewhereFormed(s: Ledger, r: Ledger, objs: seq<Object>, objs': seq<Object>, th: Thread)
    requires WellFormed(s) && WellFormed(r) && |r.bits| == |s.bits| && ThreadFormed(s, objs, th) && Elsewhere(objs, objs', th)
    ensures ThreadFormed(r, objs', th)
  {
    ElsewhereKeeps(|s.bits|, objs, objs', th);
  }

  lemma ActFormed(g: Shared, i: nat, a: Runs.Act)
    requires Formed(g) && Legal(g, Act(i, a))
    ensures Formed(After(g, Act(i, a)))
  {
    var w, th := Own(g, i), g.threads[i];
    var c := After(g, Act(i, a));
    assert ThreadFormed(g.led, g.objs, th);
    ActInPlace(w, th, a);
    ActInRange(w, a);
    forall x | 0 <= x < |g.threads| && x != i ensures ThreadFormed(c.led, c.objs, c.threads[x]) {
      assert ThreadFormed(g.led, g.objs, g.threads[x]);
      ActElsewhere(g, i, a, x);
      ElsewhereFormed(g.led, c.led, g.objs, c.objs, g.threads[x]);
    }
    forall x, y | 0 <= x < y < |c.threads| ensures Apart(c.threads[x], c.threads[y]) {
      assert Apart(g.threads[x], g.threads[y]);
      ActApart(g, i, a, if x == i then y else x);
    }
  }

  /** All threads have their records after thread `i` has acted. */
  lemma ThreadsAfterAct(g: Shared, i: nat, a: Runs.Act)
    requires Ok(g) && Legal(g, Act(i, a)) && Formed(After(g, Act(i, a)))
    ensures var c := After(g, Act(i, a)); forall x :: 0 <= x < |c.threads| ==> ThreadOk(c.led, c.objs, c.threads[x])
  {
    var w, th, c := Own(g, i), g.threads[i], After(g, Act(i, a));
    OwnAccounts(g, i);
    assert ThreadOk(g.led, g.objs, th) && ThreadFormed(c.led, c.objs, c.threads[i]);
    forall e | 0 <= e < |c.led.bits| ensures Recorded(c.objs, c.threads[i], e) {
      ActRecorded(w, th, a, Others(g, i), e);
    }
    forall x | 0 <= x < |g.threads| && x != i ensures ThreadOk(c.led, c.objs, c.threads[x]) {
      assert ThreadOk(g.led, g.objs, g.threads[x]);
      ActElsewhere(g, i, a, x);
      OtherStays(g.led, c.led, g.objs, c.objs, g.threads[x]);
    }
  }

  lemma ActElsewhere(g: Shared, i: nat, a: Runs.Act, x: nat)
    requires Formed(g) && Legal(g, Act(i, a)) && x < |g.threads| && x != i
    ensures Elsewhere(g.objs, After(g, Act(i, a)).objs, g.threads[x])
  {
    var c := After(g, Act(i, a));
    match a
    case ActPut(segs) => assert c.objs == g.objs + [segs];
    case ActCopy(segs) => assert c.objs == g.objs + [segs];
    case ActDelete(j) => assert c.objs == g.objs[j := []];
    case _ => assert c.objs == g.objs;
  }

  lemma ActApart(g: Shared, i: nat, a: Runs.Act, x: nat)
    requires Formed(g) && Legal(g, Act(i, a)) && x < |g.threads| && x != i
    requires Apart(g.threads[i], g.threads[x]) || Apart(g.threads[x], g.threads[i])
    ensures var u := After(g, Act(i, a)).threads[i]; Apart(u, g.threads[x]) && Apart(g.threads[x], u)
  {
    assert ThreadFormed(g.led, g.objs, g.threads[x]) && ThreadFormed(g.led, g.objs, g.threads[i]);
  }

  lemma ActKeeps(g: Shared, i: nat, a: Runs.Act)
    requires Ok(g) && Legal(g, Act(i, a))
    ensures Ok(After(g, Act(i, a)))
  {
    var w := Own(g, i);
    OwnAccounts(g, i);
    ActBeside(w, a, Others(g, i));
    var r := Perform(w, a);
    var u := Acted(g.threads[i], g.objs, a, r);
    SharedAccounts(r.txn.led, r.objs, g.threads, i, u);
    ActFormed(g, i, a);
    ThreadsAfterAct(g, i, a);
  }

  /** Ledger and one thread may change where nothing that exists goes. */
  lemma FormedOn(g: Shared, r: Ledger, i: nat, th: Thread)
    requires Formed(g) && WellFormed(r) && |r.bits| == |g.led.bits| && i < |g.threads|
    requires th == IDLE || th == g.threads[i].(settled := th.settled)
    ensures Formed(Shared(r, g.objs, g.threads[i := th]))
  {
    var threads := g.threads[i := th];
    IdleOk(r, g.objs);
    forall x | 0 <= x < |threads| ensures ThreadFormed(r, g.objs, threads[x]) {
      assert ThreadFormed(g.led, g.objs, g.threads[x]);
    }
    forall x, y | 0 <= x < y < |threads| ensures Apart(threads[x], threads[y]) {
      assert Apart(g.threads[x], g.threads[y]);
    }
  }

  lemma SettleKeeps(g: Shared, i: nat)
    requires Ok(g) && Legal(g, SettlePoint(i)) && Formed(After(g, SettlePoint(i)))
    ensures Ok(After(g, SettlePoint(i)))
  {
    var th, c := g.threads[i], After(g, SettlePoint(i));
    assert ThreadOk(g.led, g.objs, th);
    SettleAt(g.led, th.draft.cleared);
    MoreBits(g.led, c.led, g.objs, Notes(g.threads));
    OwnAccounts(c.(threads := g.threads), i);
    SharedAccounts(c.led, g.objs, g.threads, i, th.(settled := true));
    forall x | 0 <= x < |c.threads| ensures ThreadOk(c.led, c.objs, c.threads[x]) {
      assert ThreadOk(g.led, g.objs, g.threads[x]);
      if x == i {
        SettledOk(c.led, g.objs, th);
      }
    }
  }

  lemma SettledOk(s: Ledger, objs: seq<Object>, th: Thread)
    requires WellFormed(s) && ThreadOk(s, objs, th)
    ensures ThreadOk(s, objs, th.(settled := true))
  {
    assert Back(objs, th.(settled := true)) == Back(objs, th);
    forall e | 0 <= e < |s.bits| ensures Recorded(objs, th.(settled := true), e) {
      assert Recorded(objs, th, e);
    }
  }

  lemma CommitKeeps(g: Shared, i: nat)
    requires Ok(g) && Legal(g, Succeed(i)) && Formed(After(g, Succeed(i)))
    ensures Ok(After(g, Succeed(i)))
  {
    var c := After(g, Succeed(i));
    OwnAccounts(g, i);
    SharedAccounts(g.led, g.objs, g.threads, i, IDLE);
    IdleOk(g.led, g.objs);
    forall x | 0 <= x < |c.threads| ensures ThreadOk(c.led, c.objs, c.threads[x]) {
      assert x != i ==> ThreadOk(g.led, g.objs, g.threads[x]);
    }
  }

  lemma {:induction false} UnpinBeside(s: Ledger, ids: seq<nat>, objs: seq<Object>, noted: seq<(nat, nat)>)
    requires Accounts(s, objs, noted) && UnpinLegal(s, ids)
    ensures Accounts(UnpinAll(s, ids), objs, noted) && |UnpinAll(s, ids).bits| == |s.bits|
    decreases |ids|
  {
    if ids != [] {
      if ids[0] < |s.bits| {
        AccountsAreSound(s, objs, noted);
        MoreBits(s, UnpinOne(s, ids[0]), objs, noted);
      }
      UnpinBeside(UnpinOne(s, ids[0]), ids[1..], objs, noted);
    }
  }

  lemma PinsFormed(g: Shared, r: Ledger)
    requires Formed(g) && WellFormed(r) && |r.bits| == |g.led.bits|
    ensures Formed(g.(led := r))
  {
    forall x | 0 <= x < |g.threads| ensures ThreadFormed(r, g.objs, g.threads[x]) {
      assert ThreadFormed(g.led, g.objs, g.threads[x]);
    }
  }

  lemma PinsKeep(g: Shared, r: Ledger)
    requires Ok(g) && Accounts(r, g.objs, Notes(g.threads)) && |r.bits| == |g.led.bits|
    ensures Ok(g.(led := r))
  {
    PinsFormed(g, r);
    forall x | 0 <= x < |g.threads| ensures ThreadOk(r, g.objs, g.threads[x]) {
      assert ThreadOk(g.led, g.objs, g.threads[x]);
    }
  }

  lemma LeakKeeps(g: Shared, e: nat)
    requires Ok(g) && Legal(g, FreeLeak(e))
    ensures Ok(After(g, FreeLeak(e)))
  {
    var s, notes := g.led, Notes(g.threads);
    assert LiveAccounts(s, g.objs, notes, e) && RefAccounts(s, g.objs, e);
    TouchedHasKey(g.objs, e);
    NoKeyNoBytes(Keys(g.objs), e);
    var t := ReleaseLeaked(Txn(s, EMPTY_DRAFT), e);
    assert t.led.live == s.live && t.led.refcounts == s.refcounts;
    MoreBits(s, t.led, g.objs, notes);
    SettleAt(t.led, t.draft.cleared);
    MoreBits(t.led, Settle(t.led, t.draft.cleared), g.objs, notes);
    PinsKeep(g, After(g, FreeLeak(e)).led);
  }

  // ---------- undoing one of several transactions ----------

  /** What is held now and what was taken are what would be held and what was counted, modulo 2^32 as the
      counters are; and there is room beside the notes of the others. */
  ghost predicate Agrees(now: nat, taken: nat, back: nat, counted: nat, others: nat) {
    (now + taken - (back + counted)) % U32 == 0 && back + others < U32
  }

  /** The bytes on the extent agree, without the thread and with its record. */
  ghost predicate BytesUndone(g: Shared, i: nat, e: nat)
    requires i < |g.threads|
  {
    var th := g.threads[i];
    Agrees(Bytes(Keys(g.objs), e), SegSum(th.taken, e), Bytes(Keys(Back(g.objs, th)), e), SegSum(th.counted, e),
           SumFor(Others(g, i), e))
  }

  /** When a transaction can be undone beside the others. */
  ghost predicate Undoable(g: Shared, i: nat)
    requires WellFormed(g.led) && i < |g.threads|
  {
    var th, back := g.threads[i], Back(g.objs, g.threads[i]);
    && (forall e :: 0 <= e < |g.led.bits| ==> BytesUndone(g, i, e) && Touching(back, e) < U32)
    && (forall e :: 0 <= e < |g.led.bits| ==> BitBack(g.led, th.draft, back, Others(g, i), e))
    && forall k :: ShareBack(g.led, th.draft, back, k)
  }

  lemma Congruent(x: int, y: nat, b: nat, p: int)
    requires x == y + p && b < U32
    ensures Wraps(x, b) <==> (y + p - b) % U32 == 0
  {
    var q := (y + p - b) / U32;
    if (y + p - b) % U32 == 0 {
      assert x == q * U32 + b;
      Multiple(x, b, q);
    }
    if Wraps(x, b) {
      assert y + p - b == (x / U32) * U32;
      Multiple(y + p - b, 0, x / U32);
    }
  }

  lemma Multiple(x: int, b: nat, q: int)
    requires b < U32 && x == q * U32 + b
    ensures x % U32 == b
  {
  }

  lemma Balance(live: nat, owed: int, now: nat, own: nat, others: nat, taken: nat, counted: nat, back: nat)
    requires live == now + own + others && owed == taken - counted - own
    ensures Agrees(now, taken, back, counted, others) <==> Wraps(live + owed, back + others)
  {
    var b, p := back + others, taken - counted;
    if b < U32 {
      Congruent(live + owed, now + others, b, p);
      assert now + others + p - b == now + taken - (back + counted);
    }
  }

  /** The thread's record accounts for what the extent holds and for what the draft owes it. */
  ghost predicate Sums(g: Shared, i: nat, e: nat)
    requires WellFormed(g.led) && i < |g.threads| && e < |g.led.bits|
  {
    var th := g.threads[i];
    && g.led.live[e] == Bytes(Keys(g.objs), e) + SumFor(NotesOf(th), e) + SumFor(Others(g, i), e)
    && Owed(th.draft, e) == SegSum(th.taken, e) - SegSum(th.counted, e) - SumFor(NotesOf(th), e)
  }

  lemma UndoSums(g: Shared, i: nat, e: nat)
    requires Ok(g) && i < |g.threads| && e < |g.led.bits|
    ensures Sums(g, i, e)
  {
    assert ThreadOk(g.led, g.objs, g.threads[i]) && Recorded(g.objs, g.threads[i], e);
    assert LiveAccounts(g.led, g.objs, Notes(g.threads), e);
    OwnNotes(g.threads, i, e);
  }

  lemma UndoBytes(g: Shared, i: nat, e: nat)
    requires WellFormed(g.led) && i < |g.threads| && e < |g.led.bits| && Sums(g, i, e)
    ensures BytesUndone(g, i, e) <==>
      BytesBack(g.led, g.threads[i].draft, Back(g.objs, g.threads[i]), Others(g, i), e)
  {
    var th := g.threads[i];
    Balance(g.led.live[e], Owed(th.draft, e), Bytes(Keys(g.objs), e), SumFor(NotesOf(th), e), SumFor(Others(g, i), e),
            SegSum(th.taken, e), SegSum(th.counted, e), Bytes(Keys(Back(g.objs, th)), e));
  }

  lemma UndoRefs(g: Shared, i: nat, e: nat)
    requires Ok(g) && i < |g.threads| && e < |g.led.bits|
    ensures DraftInRange(g.led, g.threads[i].draft)
    ensures RefAccounts(Rollback(g.led, g.threads[i].draft), Back(g.objs, g.threads[i]), e) <==>
      Touching(Back(g.objs, g.threads[i]), e) < U32
  {
    var th, back := g.threads[i], Back(g.objs, g.threads[i]);
    assert ThreadOk(g.led, g.objs, th) && Recorded(g.objs, th, e);
    assert RefAccounts(g.led, g.objs, e);
    RollbackCounters(g.led, th.draft, e);
    assert g.led.refcounts[e] + RefsOwed(th.draft, e) == Touching(back, e);
    if Touching(back, e) < U32 {
      Multiple(Touching(back, e), Touching(back, e), 0);
    }
  }

  lemma BackOk(n: nat, objs: seq<Object>, th: Thread)
    requires ObjectsOk(n, objs) && InPlace(n, objs, th)
    ensures ObjectsOk(n, Back(objs, th))
  {
    forall j | 0 <= j < |objs| ensures ObjectOk(n, Back(objs, th)[j]) {
      assert ObjectOk(n, objs[j]);
    }
  }

  lemma UndoAccounts(g: Shared, i: nat)
    requires Ok(g) && i < |g.threads|
    ensures DraftInRange(g.led, g.threads[i].draft)
    ensures Accounts(Rollback(g.led, g.threads[i].draft), Back(g.objs, g.threads[i]), Others(g, i)) <==> Undoable(g, i)
  {
    var th, back := g.threads[i], Back(g.objs, g.threads[i]);
    assert ThreadOk(g.led, g.objs, th);
    var r := Rollback(g.led, th.draft);
    BackOk(|g.led.bits|, g.objs, th);
    BalancedIff(g.led, th.draft, back, Others(g, i));
    forall e | 0 <= e < |g.led.bits|
      ensures BytesUndone(g, i, e) && Touching(back, e) < U32 <==>
        BytesBack(g.led, th.draft, back, Others(g, i), e) && RefAccounts(r, back, e)
    {
      UndoSums(g, i, e);
      UndoBytes(g, i, e);
      UndoRefs(g, i, e);
    }
  }

  /** Beside other open transactions a rollback leaves books that balance if and only if the transaction is
      undoable: the bytes agree, no extent that it needs is free and none that it allocated is in use, and
      the share table, with its shares and releases taken back, counts the holders. */
  lemma UndoIff(g: Shared, i: nat)
    requires Ok(g) && Legal(g, Undo(i))
    ensures Accounted(After(g, Undo(i))) <==> Undoable(g, i)
  {
    var c := After(g, Undo(i));
    UndoAccounts(g, i);
    assert c.threads == g.threads[i := IDLE] && Notes(c.threads) == Others(g, i);
  }

  lemma UndoFormed(g: Shared, i: nat)
    requires Formed(g) && Legal(g, Undo(i))
    ensures Formed(After(g, Undo(i)))
  {
    var th, c := g.threads[i], After(g, Undo(i));
    assert ThreadFormed(g.led, g.objs, th);
    BackOk(|g.led.bits|, g.objs, th);
    IdleOk(c.led, c.objs);
    forall x | 0 <= x < |c.threads| ensures ThreadFormed(c.led, c.objs, c.threads[x]) {
      if x != i {
        assert ThreadFormed(g.led, g.objs, g.threads[x]);
        assert if x < i then Apart(g.threads[x], th) else Apart(th, g.threads[x]);
        UndoElsewhere(|g.led.bits|, g.objs, th, g.threads[x]);
      }
    }
    forall x, y | 0 <= x < y < |c.threads| ensures Apart(c.threads[x], c.threads[y]) {
      assert Apart(g.threads[x], g.threads[y]);
    }
  }

  lemma UndoKeeps(g: Shared, i: nat)
    requires Ok(g) && Legal(g, Undo(i)) && Accounted(After(g, Undo(i)))
    ensures Ok(After(g, Undo(i)))
  {
    var th, c := g.threads[i], After(g, Undo(i));
    UndoFormed(g, i);
    assert ThreadOk(g.led, g.objs, th);
    IdleOk(c.led, c.objs);
    forall x | 0 <= x < |c.threads| ensures ThreadOk(c.led, c.objs, c.threads[x]) {
      if x != i {
        assert ThreadOk(g.led, g.objs, g.threads[x]);
        assert if x < i then Apart(g.threads[x], th) else Apart(th, g.threads[x]);
        UndoOther(g.led, c.led, g.objs, th, g.threads[x]);
      }
    }
  }

  // ---------- whole runs ----------

  /** Whatever becomes of the accounting, ledger, objects and threads stay well formed. */
  lemma FormedKeeps(g: Shared, v: Event)
    requires Formed(g) && Legal(g, v)
    ensures Formed(After(g, v))
  {
    match v
    case Act(i, a) => ActFormed(g, i, a);
    case SettlePoint(i) => FormedOn(g, After(g, v).led, i, g.threads[i].(settled := true));
    case Succeed(i) => FormedOn(g, g.led, i, IDLE);
    case Undo(i) => UndoFormed(g, i);
    case PinExtents(ids) => PinsFormed(g, PinAll(g.led, ids));
    case UnpinExtents(ids) => PinsFormed(g, UnpinAll(g.led, ids));
    case FreeLeak(e) => PinsFormed(g, After(g, v).led);
  }

  /** Only a rollback can disturb the books. */
  ghost predicate Safe(g: Shared, v: Event)
    requires Formed(g) && Legal(g, v)
  {
    v.Undo? ==> Undoable(g, v.i)
  }

  lemma EventKeeps(g: Shared, v: Event)
    requires Ok(g) && Legal(g, v) && (v.Undo? ==> Accounted(After(g, v)))
    ensures Ok(After(g, v))
  {
    FormedKeeps(g, v);
    match v
    case Act(i, a) => ActKeeps(g, i, a);
    case SettlePoint(i) => SettleKeeps(g, i);
    case Succeed(i) => CommitKeeps(g, i);
    case Undo(i) => UndoKeeps(g, i);
    case PinExtents(ids) =>
      MoreBits(g.led, PinAll(g.led, ids), g.objs, Notes(g.threads));
      PinsKeep(g, PinAll(g.led, ids));
    case UnpinExtents(ids) =>
      UnpinBeside(g.led, ids, g.objs, Notes(g.threads));
      PinsKeep(g, UnpinAll(g.led, ids));
    case FreeLeak(e) => LeakKeeps(g, e);
  }

  /** Any run of legal events. */
  ghost predicate RunLegal(g: Shared, events: seq<Event>)
    requires Formed(g)
    decreases |events|
  {
    events == [] || (Legal(g, events[0]) && (FormedKeeps(g, events[0]); RunLegal(After(g, events[0]), events[1..])))
  }

  ghost function AfterAll(g: Shared, events: seq<Event>): Shared
    requires Formed(g) && RunLegal(g, events)
    decreases |events|
  {
    if events == [] then g else
      FormedKeeps(g, events[0]);
      AfterAll(After(g, events[0]), events[1..])
  }

  /** Every rollback of the run is of a transaction that can be undone. */
  ghost predicate AllSafe(g: Shared, events: seq<Event>)
    requires Formed(g) && RunLegal(g, events)
    decreases |events|
  {
    events == [] ||
    (Safe(g, events[0]) && (FormedKeeps(g, events[0]); AllSafe(After(g, events[0]), events[1..])))
  }

  /** The accounting holds after every prefix of the run. */
  ghost predicate AllAccounted(g: Shared, events: seq<Event>)
    requires Formed(g) && RunLegal(g, events)
    decreases |events|
  {
    Accounted(g) &&
    (events == [] || (FormedKeeps(g, events[0]); AllAccounted(After(g, events[0]), events[1..])))
  }

  lemma EventBooks(g: Shared, v: Event)
    requires Ok(g) && Legal(g, v)
    ensures Accounted(After(g, v)) <==> Safe(g, v)
  {
    if v.Undo? {
      UndoIff(g, v.i);
    } else {
      EventKeeps(g, v);
    }
  }

  /** However the acts, commits and rollbacks of any number of transactions interleave, the ledger agrees
      with the objects and with the notes of all that are still open after every event if and only if every
      rollback is of a transaction that can be undone. */
  lemma {:induction false} InterleavedAccounting(g: Shared, events: seq<Event>)
    requires Ok(g) && RunLegal(g, events)
    ensures AllAccounted(g, events) <==> AllSafe(g, events)
    ensures AllSafe(g, events) ==> Ok(AfterAll(g, events))
    decreases |events|
  {
    if events != [] {
      var c := After(g, events[0]);
      FormedKeeps(g, events[0]);
      EventBooks(g, events[0]);
      if Safe(g, events[0]) {
        EventKeeps(g, events[0]);
        InterleavedAccounting(c, events[1..]);
      } else {
        assert !AllAccounted(c, events[1..]);
      }
    }
  }

  lemma {:induction false} QuietNotes(threads: seq<Thread>)
    requires forall i :: 0 <= i < |threads| ==> NotesOf(threads[i]) == []
    ensures Notes(threads) == []
  {
    if threads != [] {
      QuietNotes(threads[1..]);
    }
  }

  /** With nothing noted the accounting is that of a store between transactions. */
  lemma QuietIsStore(g: Shared, events: seq<Event>)
    requires Ok(g) && RunLegal(g, events) && AllSafe(g, events)
    requires forall i :: 0 <= i < |AfterAll(g, events).threads| ==> NotesOf(AfterAll(g, events).threads[i]) == []
    ensures var r := AfterAll(g, events); StoreOk(Store(r.led, r.objs))
  {
    InterleavedAccounting(g, events);
    QuietNotes(AfterAll(g, events).threads);
  }
}
