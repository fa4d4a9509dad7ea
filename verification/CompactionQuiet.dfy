/** A switch in whose window nobody interferes: what others may do there without looking at the ledger,
    so that both its outcomes are right. */
module CompactionQuiet {
  import opened Words
  import opened Compactions
  import opened Migrations
  import opened CompactionRuns
  import opened CompactionSwitches
  import opened CompactionReads
  import opened CompactionSafety
  import L = Ledgers
  import H = Holdings
  import R = Runs
  import C = CompactionLedgers
  import U = Undoing
  import W = CompactionWindows
  import O = CompactionOutcomes
  import Rollbacks

  /** A transaction that neither releases nor shares nor lays down a planned segment, frees no extent from
      which the open switch has taken bytes, and takes no extent under an object. */
  ghost predicate Quiet(b: Batch, p: Step)
    requires Ranged(b) && Legal(b, p) && b.open.Some?
  {
    match p
    case Delete(id) => KeepsAway(b, Listed(b.store[id])) && FreesNothingTaken(b, After(b, p))
    case Copy(o) => KeepsAway(b, Listed(o))
    case Put(ids, _, _, o, _) => KeepsAway(b, Listed(o)) && forall s :: s in Refs(b.store) ==> s.ext !in ids
    case Pin(_) => true
    case Unpin(_) => FreesNothingTaken(b, After(b, p))
    case _ => false
  }

  ghost predicate KeepsAway(b: Batch, segs: seq<Segment>)
    requires Ranged(b) && b.open.Some?
  {
    forall s :: s in segs ==> Key(s) !in OldKeys(b)
  }

  ghost predicate FreesNothingTaken(b: Batch, b': Batch)
    requires b.open.Some?
  {
    && |b'.led.bits| == |b.led.bits|
    && forall e :: 0 <= e < |b.led.bits| && b.led.bits[e] && !b'.led.bits[e] ==> Rollbacks.SumFor(b.open.value.liveDec, e) == 0
  }

  /** The switch of object `at` is open; right books await its failure as well as its commit. */
  ghost predicate Ready(b: Batch, at: nat) {
    Inv(b) && b.open.Some? && b.ours && Commits(b, at) && Accounted(b) && Foreseen(b)
  }

  lemma KeysAway(b: Batch, segs: seq<Segment>)
    requires Ranged(b) && b.open.Some? && KeepsAway(b, segs)
    ensures forall k :: k in KeysOf(segs) ==> k !in OldKeys(b)
  {
    KeyMembers(segs);
  }

  /** The switch that is ready in the allocator's terms. */
  lemma ReadyIsWhole(b: Batch, at: nat)
    requires Ready(b, at)
    ensures O.Whole(|b.led.bits|, Held(b.store), NewKeys(b), OldKeys(b))
    ensures U.Balanced(b.led, b.open.value, Held(b.store), []) && O.Ahead(b.led, Held(b.store), NewKeys(b), OldKeys(b))
    ensures W.SwitchDraft(b.open.value, Alloc(b), NewKeys(b), OldKeys(b), |b.led.bits|)
  {
    SwitchIsWhole(b, at);
    BooksIff(b);
  }

  lemma QuietDelete(b: Batch, id: nat, at: nat)
    requires Ready(b, at) && id < |b.store| && Quiet(b, Delete(id))
    ensures SafeIfFails(b, Delete(id)) && SafeIfCommits(b, Delete(id))
  {
    ReadyIsWhole(b, at);
    HeldInRange(b, id);
    KeysAway(b, Listed(b.store[id]));
    O.QuietDeleteIsClean(b.led, b.open.value, Alloc(b), Held(b.store), id, NewKeys(b), OldKeys(b));
  }

  lemma QuietCopy(b: Batch, o: Object, at: nat)
    requires Ready(b, at) && Legal(b, Copy(o)) && Quiet(b, Copy(o))
    ensures SafeIfFails(b, Copy(o)) && SafeIfCommits(b, Copy(o))
  {
    var gone, ks := OldKeys(b), KeysOf(Listed(o));
    KeysAway(b, Listed(o));
    SharedOk(b, o);
    ReadyIsWhole(b, at);
    forall k | k in ks
      ensures Rollbacks.Count(b.open.value.sharedDec, k) == 0 && O.Then(Held(b.store), NewKeys(b), gone, k) >= 1
    {
      Rollbacks.CountPositive(gone, k);
      H.HeldIffKey(Held(b.store), k);
    }
  }

  lemma QuietRoom(b: Batch, o: Object, at: nat, e: nat)
    requires Ready(b, at) && e < |b.led.bits| && R.Fits(|b.led.bits|, H.Keys(Held(b.store) + [KeysOf(Listed(o))]), [])
    requires L.Distinct(KeysOf(Listed(o))) && forall k :: k in KeysOf(Listed(o)) ==> k !in H.Keys(Held(b.store))
    requires forall s :: s in Listed(o) ==> s.ext != b.eid
    ensures H.Bytes(O.Kept(Held(b.store), NewKeys(b), OldKeys(b)), e) + H.SegSum(KeysOf(Listed(o)), e) < L.U32
  {
    var ks := KeysOf(Listed(o));
    ReadyIsWhole(b, at);
    assert O.LiveAhead(b.led, Held(b.store), NewKeys(b), OldKeys(b), e);
    if e == b.eid {
      forall i | 0 <= i < |ks| ensures ks[i].ext != e {
        assert Listed(o)[i] in Listed(o);
      }
      NoSum(ks, e);
    } else {
      assert ItemShape(b, b.items[b.next]);
      NoSum(NewKeys(b), e);
      O.CommitSums(|b.led.bits|, Held(b.store), NewKeys(b), OldKeys(b), e);
      R.PutKeys(Held(b.store), ks);
      H.BytesAddAll(H.Keys(Held(b.store)), ks, e);
      assert H.Bytes(H.Keys(Held(b.store) + [ks]), e) + Rollbacks.SumFor([], e) < L.U32;
    }
  }

  lemma QuietThen(b: Batch, o: Object, k: L.Seg)
    requires Inv(b) && b.open.Some? && KeepsAway(b, Listed(o)) && (forall s :: s in Listed(o) ==> s.ext != b.eid)
    requires k in KeysOf(Listed(o)) && k !in H.Keys(Held(b.store))
    ensures O.Then(Held(b.store), NewKeys(b), OldKeys(b), k) == 0
  {
    KeysAway(b, Listed(o));
    KeyMembers(Listed(o));
    assert ItemShape(b, b.items[b.next]);
    Rollbacks.CountPositive(OldKeys(b), k);
    Rollbacks.CountPositive(NewKeys(b), k);
    H.HeldIffKey(Held(b.store), k);
  }

  lemma QuietPut(b: Batch, ids: seq<nat>, skipped: set<nat>, ranges: seq<(nat, nat)>, o: Object, disk: Disk, at: nat)
    requires Ready(b, at) && PutLegal(b, ids, skipped, ranges, o, disk) && KeepsAway(b, Listed(o))
    ensures KeepsOut(b, o) && KeepsApart(b, o)
  {
    var ks := KeysOf(Listed(o));
    ExpandOne(b.eid);
    forall k | k in ks ensures k !in H.Keys(Held(b.store)) && O.Then(Held(b.store), NewKeys(b), OldKeys(b), k) == 0 {
      QuietThen(b, o, k);
    }
    forall e | 0 <= e < |b.led.bits|
      ensures H.Bytes(O.Kept(Held(b.store), NewKeys(b), OldKeys(b)), e) + H.SegSum(ks, e) < L.U32
    {
      QuietRoom(b, o, at, e);
    }
  }

  lemma QuietUnpin(b: Batch, ids: seq<nat>, at: nat)
    requires Ready(b, at) && Legal(b, Unpin(ids)) && Quiet(b, Unpin(ids))
    ensures SafeIfFails(b, Unpin(ids))
  {
    ReadyIsWhole(b, at);
    UnpinShape(b.led, ids);
    O.QuietBits(b.led, R.UnpinAll(b.led, ids), b.open.value, Alloc(b), Held(b.store), NewKeys(b), OldKeys(b));
  }

  /** A quiet transaction is safe for both outcomes. */
  lemma QuietIsSafe(b: Batch, p: Step, at: nat)
    requires Ready(b, at) && Legal(b, p) && Quiet(b, p)
    ensures SafeIfFails(b, p) && SafeIfCommits(b, p)
  {
    match p
    case Delete(id) => QuietDelete(b, id, at);
    case Copy(o) => QuietCopy(b, o, at);
    case Put(ids, skipped, ranges, o, disk) => QuietPut(b, ids, skipped, ranges, o, disk, at);
    case Pin(ids) =>
    case Unpin(ids) => QuietUnpin(b, ids, at);
  }

  /** The copies of a switch that will commit keep its target allocated. */
  lemma TargetInUse(b: Batch, at: nat)
    requires Inv(b) && b.open.Some? && Foreseen(b) && Commits(b, at)
    ensures b.led.bits[b.eid]
  {
    var k := NewKeys(b)[0];
    assert ItemShape(b, b.items[b.next]);
    assert k in NewKeys(b) && k.ext == b.eid && k.len > 0;
    ItemObjects(b);
    H.DistinctCount(NewKeys(b), k);
    H.DistinctCount(OldKeys(b), k);
    if k in OldKeys(b) {
      PlannedIsHeld(b, at, k);
    }
    O.KeptIff(Held(b.store), NewKeys(b), OldKeys(b), k);
    H.BytesRemove(O.Kept(Held(b.store), NewKeys(b), OldKeys(b)), k, b.eid);
    assert O.LiveAhead(b.led, Held(b.store), NewKeys(b), OldKeys(b), b.eid);
  }

  lemma PlannedIsHeld(b: Batch, at: nat, k: L.Seg)
    requires Inv(b) && Commits(b, at) && k in OldKeys(b)
    ensures k in Held(b.store)[at] && k in H.Keys(Held(b.store)) && H.Holders(Held(b.store), k) >= 1
  {
    SwitchedLists(b, at);
    KeyMembers(b.items[b.next].old_);
    KeyMembers(Listed(b.store[at]));
    assert Held(b.store)[at] in Held(b.store);
    H.HeldIffKey(Held(b.store), k);
  }

  /** Whoever keeps away from the planned segments does not delete the object. */
  lemma QuietSpares(b: Batch, p: Step, at: nat)
    requires Inv(b) && b.open.Some? && Commits(b, at) && Legal(b, p) && Quiet(b, p)
    ensures !ActsOn(p, at) && !Own(p)
  {
    SwitchedLists(b, at);
    assert b.items[b.next].old_[0] in b.items[b.next].old_;
    KeyMembers(b.items[b.next].old_);
  }

  lemma OtherFields(b: Batch, p: Step, at: nat)
    requires Ranged(b) && Legal(b, p) && !Own(p) && at < |b.store| && !ActsOn(p, at)
    ensures var c := After(b, p);
      && c.open == b.open && c.next == b.next && c.items == b.items && c.eid == b.eid && at < |c.store|
      && c.store[at] == b.store[at]
      && (b.ours && c.eid < |c.led.bits| && c.led.bits[c.eid] ==> c.ours)
  {
  }

  /** After a quiet transaction the switch is as ready as before. */
  lemma QuietStep(b: Batch, p: Step, at: nat)
    requires Ready(b, at) && Legal(b, p) && Quiet(b, p)
    ensures Ready(After(b, p), at) && After(b, p).open == b.open
    ensures Safe(b, p, true) && Safe(b, p, false)
    ensures forall id :: 0 <= id < |b.store| ==> Minds(b, p, id)
  {
    QuietIsSafe(b, p, at);
    QuietSpares(b, p, at);
    OtherFields(b, p, at);
    StepKeeps(b, p);
    OtherBooks(b, p, true);
    OtherBooks(b, p, false);
    TargetInUse(After(b, p), at);
    forall id | 0 <= id < |b.store| ensures Minds(b, p, id) {
      RefsOfObject(b.store, id);
    }
  }

  ghost predicate QuietRun(b: Batch, run: seq<Step>)
    requires RunLegal(b, run)
    decreases |run|
  {
    run == [] || (b.open.Some? && Quiet(b, run[0]) && QuietRun(After(b, run[0]), run[1..]))
  }

  /** In a window in which all transactions are quiet every step is safe for both outcomes of the switch,
      right books await both at the end, and nothing is written under any object. */
  lemma {:induction false} QuietWindowIsSafe(b: Batch, run: seq<Step>, at: nat, id: nat)
    requires Ready(b, at) && RunLegal(b, run) && QuietRun(b, run) && id < |b.store|
    ensures SafeThroughout(b, run, true) && SafeThroughout(b, run, false) && AllMind(b, run, id)
    ensures Ready(AfterAll(b, run), at) && AfterAll(b, run).open == b.open
    decreases |run|
  {
    if run != [] {
      var p, rest := run[0], run[1..];
      QuietStep(b, p, at);
      QuietSpares(b, p, at);
      StoreGrows(b, p);
      QuietWindowIsSafe(After(b, p), rest, at, id);
    }
  }

  /** Deleted objects leave their place behind. */
  lemma StoreGrows(b: Batch, p: Step)
    requires Ranged(b) && Legal(b, p) && !Own(p)
    ensures |After(b, p).store| >= |b.store|
  {
    match p
    case Delete(_) =>
    case Copy(_) =>
    case Put(_, _, _, _, _) =>
    case Pin(_) =>
    case Unpin(_) =>
  }

  /** A switch whose object is whole, and whose target is the batch's, is ready as soon as it is open. */
  lemma OpenIsReady(b: Batch, at: nat)
    requires Inv(b) && Accounted(b) && Legal(b, Open) && Commits(b, at) && b.ours
    ensures Ready(After(b, Open), at)
  {
    var c := After(b, Open);
    OpenKeeps(b);
    OursOpens(b);
    forall k | k in OldKeys(b) ensures k in H.Keys(Held(b.store)) {
      PlannedIsHeld(b, at, k);
    }
    OpenBooks(b, false);
    OpenBooks(b, true);
    TargetInUse(c, at);
  }
}
