/** What becomes of objects when others interfere with a switch: the runs that the conditions of
    CompactionSafety and CompactionReads exclude, and one that only an outcome excludes. */
module CompactionLosses {
  import opened Words
  import opened Compactions
  import opened Migrations
  import opened CompactionRuns
  import opened CompactionSwitches
  import opened CompactionReads
  import opened CompactionSafety
  import opened CompactionQuiet
  import L = Ledgers
  import H = Holdings
  import R = Runs
  import C = CompactionLedgers
  import U = Undoing
  import W = CompactionWindows
  import O = CompactionOutcomes
  import Rollbacks

  // ---------- writing under an object ----------

  /** A byte other than `x`. */
  function Other(x: Byte): (y: Byte)
    ensures y != x
  {
    var y := x[0 := !x[0]];
    assert y[0] != x[0];
    y
  }

  /** An extent with one byte spoilt. */
  function Spoilt(area: seq<Byte>, at: nat, x: Byte): seq<Byte>
    requires at < |area|
  {
    area[at := Other(x)]
  }

  /** Somebody takes a free extent and writes one byte, before it has any object there. */
  function Intruder(e: nat, disk: Disk): Step {
    Put([e], {}, [(e, 1)], GONE, disk)
  }

  /** The counters have room for what is held. */
  ghost predicate Countable(b: Batch) {
    R.Fits(|b.led.bits|, H.Keys(Held(b.store)), [])
  }

  lemma IntruderTakes(b: Batch, e: nat)
    requires Ranged(b) && Countable(b) && e < |b.led.bits| && !b.led.bits[e] && b.led.pins[e] == 0
    ensures L.MayTake(b.led, [e], {}) && multiset(L.Expand([(e, 1)])) == multiset([e])
    ensures R.PutLegal(C.Writer(b.led, Held(b.store), [e], {}, [(e, 1)]), [], [])
  {
    ExpandOne(e);
    R.PutKeys(Held(b.store), []);
    assert H.Keys(Held(b.store) + [[]]) == H.Keys(Held(b.store));
    Rollbacks.TakeAllAt(L.Isolate(b.led, {}), [e]);
  }

  lemma IntruderLegal(b: Batch, e: nat, area: seq<Byte>)
    requires Ranged(b) && Countable(b) && e < |b.led.bits| && !b.led.bits[e] && b.led.pins[e] == 0 && |area| == b.cap
    requires b.ours ==> e != b.eid
    ensures Legal(b, Intruder(e, b.disk[e := area]))
  {
    IntruderTakes(b, e);
    assert Listed(GONE) == [] && KeysOf(Listed(GONE)) == [];
  }

  lemma ReadsOther(disk: Disk, o: Object, disk': Disk, s: Segment)
    requires AllFit(disk, o.extents) && AllFit(disk, o.restored) && AllFit(disk', o.extents) && AllFit(disk', o.restored)
    requires s in Listed(o) && Fits(disk, s) && Fits(disk', s) && Bytes(disk, s) != Bytes(disk', s)
    ensures Read(disk, o.extents) != Read(disk', o.extents) || Read(disk, o.restored) != Read(disk', o.restored)
  {
    var p :| 0 <= p < |Listed(o)| && Listed(o)[p] == s;
    if p < |o.extents| {
      ReadsDiffer(disk, o.extents, disk', o.extents, p);
    } else {
      ReadsDiffer(disk, o.restored, disk', o.restored, p - |o.extents|);
    }
  }

  lemma SpoiltCopy(disk: Disk, gone: Segment, copy: Segment)
    requires Fits(disk, gone) && gone.len > 0 && Fits(disk, copy) && copy.len == gone.len
    ensures var disk' := disk[copy.ext := Spoilt(disk[copy.ext], copy.off, Bytes(disk, gone)[0])];
      Fits(disk', copy) && Bytes(disk, gone) != Bytes(disk', copy)
  {
    var disk' := disk[copy.ext := Spoilt(disk[copy.ext], copy.off, Bytes(disk, gone)[0])];
    assert Bytes(disk', copy)[0] != Bytes(disk, gone)[0];
  }

  /** While something of an object lies in a free extent, as it does when the open switch has emptied the
      extent, somebody may take that and overwrite it: the object then reads other bytes. */
  lemma TakenIsOverwritten(b: Batch, id: nat, s: Segment) returns (p: Step)
    requires Inv(b) && Countable(b) && id < |b.store| && s in Listed(b.store[id])
    requires s.ext < |b.led.bits| && !b.led.bits[s.ext] && b.led.pins[s.ext] == 0
    ensures p.Put? && Legal(b, p) && !Minds(b, p, id) && !ReadsSame(b, After(b, p), id)
  {
    ListedNotEmpty(b, id, s);
    var area := Spoilt(b.disk[s.ext], s.off, Bytes(b.disk, s)[0]);
    SpoiltCopy(b.disk, s, s);
    IntruderLegal(b, s.ext, area);
    p := Intruder(s.ext, b.disk[s.ext := area]);
    SpoiltReads(b, p, id, s);
  }

  lemma ListedNotEmpty(b: Batch, id: nat, s: Segment)
    requires Ranged(b) && id < |b.store| && s in Listed(b.store[id])
    ensures Fits(b.disk, s) && s.len > 0
  {
    ListedFit(b, id);
    HeldInRange(b, id);
    KeyMembers(Listed(b.store[id]));
    assert Key(s) in Held(b.store)[id];
  }

  lemma SpoiltReads(b: Batch, p: Step, id: nat, s: Segment)
    requires Ranged(b) && p.Put? && Legal(b, p) && id < |b.store| && s in Listed(b.store[id])
    requires Fits(b.disk, s) && Fits(p.disk, s) && Bytes(b.disk, s) != Bytes(p.disk, s)
    ensures !ReadsSame(b, After(b, p), id)
  {
    var c := After(b, p);
    if ReadsSame(b, c, id) {
      ReadsOther(b.disk, b.store[id], c.disk, s);
    }
  }

  // ---------- a target that was freed before the switch ----------

  /** A switch that commits onto a target that is free leaves its object in a free extent. */
  lemma OntoFreeTarget(b: Batch, at: nat)
    requires Inv(b) && b.open.Some? && Commits(b, at) && !b.led.bits[b.eid]
    ensures var c := CommitOf(b, at); at < |c.store| && !OnAllocated(c, at)
  {
    SwitchedLists(b, at);
    var it := b.items[b.next];
    assert ItemShape(b, it);
    assert it.new_[0] in it.new_ && it.new_[0] in Listed(CommitOf(b, at).store[at]);
  }

  lemma RoomCounts(b: Batch)
    requires b.next < |b.items| && O.HasRoom(|b.led.bits|, Held(b.store), NewKeys(b))
    ensures Countable(b)
  {
    forall e | 0 <= e < |b.led.bits| ensures H.Bytes(H.Keys(Held(b.store)), e) + Rollbacks.SumFor([], e) < L.U32 {
      assert H.Bytes(H.Keys(Held(b.store)), e) + H.SegSum(NewKeys(b), e) < L.U32;
    }
  }

  /** Somebody may take the free target and spoil the first copy. */
  lemma TargetIntruder(b: Batch, at: nat) returns (p: Step)
    requires Inv(b) && Legal(b, Open) && Commits(b, at) && !b.led.bits[b.eid] && b.led.pins[b.eid] == 0
    ensures Replaceable(b, at) && p.Put? && p.o == GONE && Legal(b, p)
    ensures Fits(p.disk, b.items[b.next].new_[0])
    ensures Bytes(b.disk, b.items[b.next].old_[0]) != Bytes(p.disk, b.items[b.next].new_[0])
  {
    SwitchReplaces(b, at);
    RoomCounts(b);
    var gone, copy := b.items[b.next].old_[0], b.items[b.next].new_[0];
    var area := Spoilt(b.disk[b.eid], copy.off, Bytes(b.disk, gone)[0]);
    SpoiltCopy(b.disk, gone, copy);
    IntruderLegal(b, b.eid, area);
    p := Intruder(b.eid, b.disk[b.eid := area]);
  }

  lemma IntruderFields(b: Batch, p: Step)
    requires Ranged(b) && Legal(b, p) && p.Put? && p.o == GONE
    ensures var c := After(b, p);
      && c == b.(led := c.led, store := b.store + [GONE], disk := p.disk, ours := c.ours)
      && |c.led.bits| == |b.led.bits|
  {
  }

  lemma GoneHoldsNothing(store: seq<Object>)
    ensures H.Keys(Held(store + [GONE])) == H.Keys(Held(store))
  {
    HeldAppend(store, GONE);
    assert KeysOf(Listed(GONE)) == [];
    R.PutKeys(Held(store), []);
    assert H.Keys(Held(store) + [[]]) == H.Keys(Held(store));
  }

  lemma StillOpens(b: Batch, c: Batch)
    requires Inv(c) && L.WellFormed(b.led) && Legal(b, Open) && |c.led.bits| == |b.led.bits|
    requires c == b.(led := c.led, store := b.store + [GONE], disk := c.disk, ours := c.ours)
    ensures Legal(c, Open)
  {
    GoneHoldsNothing(b.store);
    ItemInRange(c, c.next);
  }

  lemma IntruderThenOpen(b: Batch, p: Step)
    requires Inv(b) && Legal(b, Open) && Legal(b, p) && p.Put? && p.o == GONE
    ensures Inv(After(b, p)) && Legal(After(b, p), Open)
  {
    StepKeeps(b, p);
    IntruderFields(b, p);
    StillOpens(b, After(b, p));
  }

  lemma ThenOpens(b: Batch, p: Step)
    requires Inv(b) && Legal(b, Open) && Legal(b, p) && p.Put? && p.o == GONE
    ensures Inv(After(b, p)) && Legal(After(b, p), Open)
    ensures var d := After(After(b, p), Open);
      && Inv(d) && d.open.Some? && d.disk == p.disk && d.items == b.items && d.next == b.next
      && d.phase == b.phase && d.store == b.store + [GONE]
  {
    IntruderThenOpen(b, p);
    IntruderFields(b, p);
    OpenFields(After(b, p));
    OpenKeeps(After(b, p));
  }

  /** The target is free and the next switch still to come: others may take the target and write to it,
      and the switch commits all the same. Its object then reads other bytes, although nobody touched it. */
  lemma FreedTargetIsOverwritten(b: Batch, at: nat) returns (p: Step)
    requires Inv(b) && Legal(b, Open) && Commits(b, at) && !b.led.bits[b.eid] && b.led.pins[b.eid] == 0
    ensures p.Put? && Legal(b, p) && Inv(After(b, p))
    ensures var c := After(b, p); Legal(c, Open) && Inv(After(c, Open)) && Legal(After(c, Open), Close(at, false))
    ensures !ReadsSame(b, After(After(After(b, p), Open), Close(at, false)), at)
  {
    p := TargetIntruder(b, at);
    ThenOpens(b, p);
    SpoiltCommit(b, After(After(b, p), Open), at);
  }

  lemma SpoiltCommit(b: Batch, d: Batch, at: nat)
    requires Ranged(d) && d.open.Some? && at < |b.store| && at < |d.store| && d.store[at] == b.store[at]
    requires Commits(b, at) && Replaceable(b, at) && d.items == b.items && d.next == b.next
    requires Fits(d.disk, b.items[b.next].new_[0]) && Fits(b.disk, b.items[b.next].old_[0])
    requires Bytes(b.disk, b.items[b.next].old_[0]) != Bytes(d.disk, b.items[b.next].new_[0])
    ensures Commits(d, at) && !ReadsSame(b, Closed(d, at, false), at)
  {
    var it, o, r := b.items[b.next], b.store[at], CommitOf(d, at);
    if ReadsSame(b, r, at) {
      SpoiltObject(b.disk, o, r.disk, it.old_, it.new_, 0);
    }
  }

  // ---------- interference with an open switch that fails ----------

  /** What lies in a free extent, which the switch had not emptied itself, is lost if the switch fails. */
  lemma FreeStaysFree(b: Batch, id: nat, s: Segment)
    requires Ranged(b) && b.open.Some? && id < |b.store| && s in Listed(b.store[id])
    requires s.ext < |b.led.bits| && !b.led.bits[s.ext] && s.ext !in b.open.value.cleared
    ensures !OnAllocated(FailOf(b), id)
  {
    U.RollbackShape(b.led, b.open.value);
    assert s in Listed(FailOf(b).store[id]);
  }

  /** By the books for a failure such an object lies in a free extent. */
  lemma LostBooks(b: Batch, id: nat, s: Segment)
    requires Ranged(b) && b.open.Some? && id < |b.store| && s in Listed(b.store[id])
    requires s.ext < |b.led.bits| && !b.led.bits[s.ext] && s.ext !in b.open.value.cleared
    ensures !Accounted(b)
  {
    if Accounted(b) {
      RefsOfObject(b.store, id);
      RefAllocated(b, s);
      U.RollbackShape(b.led, b.open.value);
    }
  }

  /** The next switch moves the one segment `s` of object `at`. */
  ghost predicate Single(b: Batch, at: nat, other: nat, s: Segment) {
    && Inv(b) && Accounted(b) && Legal(b, Open) && at < |b.store| && other < |b.store| && at != other
    && b.items[b.next].old_ == [s] && b.store[at] == Object([s], [])
    && s.ext < |b.led.bits| && s.ext != b.eid && b.led.pins[s.ext] == 0 && s.len > 0 && L.WellFormed(b.led)
  }

  /** Another object shares it. */
  ghost predicate SharedByTwo(b: Batch, at: nat, other: nat, s: Segment) {
    && Single(b, at, other, s) && s in Listed(b.store[other])
    && Rollbacks.Entry(b.led.shared, Key(s)) == 2 && b.led.live[s.ext] == s.len
  }

  /** The one segment of another object is alone with it in its extent, and neither is shared. */
  ghost predicate AloneTogether(b: Batch, at: nat, other: nat, s: Segment, m: Segment) {
    && Single(b, at, other, s) && b.store[other] == Object([m], []) && m.ext == s.ext && Key(m) != Key(s) && m.len > 0
    && Rollbacks.Entry(b.led.shared, Key(s)) == 0 && Rollbacks.Entry(b.led.shared, Key(m)) == 0
    && b.led.live[s.ext] == s.len + m.len
  }

  lemma CopiesElsewhere(b: Batch, e: nat)
    requires PlanOk(b) && b.next < |b.items| && e != b.eid
    ensures !H.Touches(NewKeys(b), e)
  {
    assert ItemShape(b, b.items[b.next]);
  }

  lemma WindowIsOpened(b: Batch, k: L.Seg)
    requires L.WellFormed(b.led) && b.next < |b.items| && InRangeItem(b, b.items[b.next]) && OldKeys(b) == [k]
    ensures L.InRange(b.led, NewKeys(b)) && k.ext < |b.led.bits| && L.Below(L.Expand(Alloc(b)), |b.led.bits|)
    ensures Opened(b).led == W.WindowLedger(b.led, Alloc(b), NewKeys(b), k)
    ensures Opened(b).open == Some(W.WindowDraft(b.led, Alloc(b), NewKeys(b), k))
  {
    C.MovedShape(b.led, Alloc(b), NewKeys(b), OldKeys(b));
    assert OldKeys(b)[0].ext < |b.led.bits|;
  }

  lemma SingleOpens(b: Batch, at: nat, other: nat, s: Segment)
    requires Single(b, at, other, s)
    ensures OldKeys(b) == [Key(s)] && W.Opens(b.led, Alloc(b), NewKeys(b), Key(s))
    ensures Opened(b).led == W.WindowLedger(b.led, Alloc(b), NewKeys(b), Key(s))
    ensures Opened(b).open == Some(W.WindowDraft(b.led, Alloc(b), NewKeys(b), Key(s)))
  {
    ExpandOne(b.eid);
    CopiesElsewhere(b, s.ext);
    WindowIsOpened(b, Key(s));
  }

  lemma OpenFields(b: Batch)
    requires Inv(b) && Legal(b, Open)
    ensures var c := After(b, Open);
      && c.led == Opened(b).led && c.open == Opened(b).open && c.open.Some? && c.store == b.store
      && c.items == b.items && c.next == b.next && c.phase == b.phase && |c.led.bits| == |b.led.bits|
      && c.disk == b.disk
  {
  }

  lemma DeletedLedger(c: Batch, id: nat, s: Segment)
    requires Ranged(c) && id < |c.store| && c.store[id] == Object([s], []) && s.ext < |c.led.bits|
    requires L.InRange(c.led, [Key(s)]) && !C.Freed(c.led, [Key(s)]).bits[s.ext]
    ensures Ranged(Deleted(c, id)) && !Deleted(c, id).led.bits[s.ext]
  {
    DeleteShape(c, id);
    HeldInRange(c, id);
    assert KeysOf(Listed(c.store[id])) == [Key(s)];
  }

  /** After the switch was opened and object `id` deleted, the other object lies in an extent that is free
      and that the switch has not emptied. */
  ghost predicate Stranded(c: Batch, id: nat, other: nat, s: Segment) {
    && Ranged(c) && OpenOk(c) && c.open.Some? && id < |c.store| && other < |c.store| && id != other
    && s in Listed(c.store[other]) && s.ext < |c.led.bits| && s.ext !in c.open.value.cleared
    && Ranged(Deleted(c, id)) && !Deleted(c, id).led.bits[s.ext]
  }

  lemma StrandedFacts(c: Batch, id: nat, other: nat, s: Segment)
    requires Stranded(c, id, other, s)
    ensures var d := Deleted(c, id);
      && Ranged(d) && d.open.Some? && other < |d.store| && s in Listed(d.store[other])
      && s.ext < |d.led.bits| && !d.led.bits[s.ext] && s.ext !in d.open.value.cleared
  {
    DeletedFields(c, id, other);
  }

  lemma StrandedUnsafe(c: Batch, id: nat, other: nat, s: Segment)
    requires Stranded(c, id, other, s) && Accounted(c)
    ensures !SafeIfFails(c, Delete(id))
  {
    StrandedFacts(c, id, other, s);
    DeleteIfFails(c, id);
    LostBooks(Deleted(c, id), other, s);
  }

  /** A failure loses the other object. */
  lemma StrandedIsLost(c: Batch, id: nat, other: nat, s: Segment)
    requires Stranded(c, id, other, s)
    ensures other < |FailOf(Deleted(c, id)).store| && !OnAllocated(FailOf(Deleted(c, id)), other)
  {
    StrandedFacts(c, id, other, s);
    FreeStaysFree(Deleted(c, id), other, s);
  }

  lemma DeletedFields(c: Batch, id: nat, other: nat)
    requires Ranged(c) && id < |c.store| && other < |c.store| && id != other
    ensures var d := Deleted(c, id);
      && d.open == c.open && d.next == c.next && d.items == c.items && d.phase == c.phase && d.eid == c.eid
      && |d.store| == |c.store| && d.store[other] == c.store[other] && d.store[id] == GONE
      && |d.led.bits| == |c.led.bits|
  {
  }

  lemma BystanderOpen(b: Batch, at: nat, other: nat, s: Segment)
    requires SharedByTwo(b, at, other, s)
    ensures Stranded(After(b, Open), at, other, s) && Accounted(After(b, Open))
  {
    OpenKeeps(b);
    OpenBooks(b, false);
    OpenFields(b);
    SingleOpens(b, at, other, s);
    W.OpenOne(b.led, Alloc(b), NewKeys(b), Key(s));
    W.FreedByEntry(Opened(b).led, Key(s));
    DeletedLedger(After(b, Open), at, s);
  }

  /** The first object is switched, deleted by somebody while the switch is open, and the switch fails for
      that reason: the other object, which nobody touched, lies in a free extent. No commit ever went to
      a free target. */
  lemma BystanderRun(b: Batch, at: nat, other: nat, s: Segment)
    requires SharedByTwo(b, at, other, s)
    ensures var c := After(b, Open);
      && Inv(c) && Accounted(c) && c.open.Some? && at < |c.store| && !SafeIfFails(c, Delete(at))
      && var d := Deleted(c, at);
         && Inv(d) && Legal(d, Close(at, false)) && !Commits(d, at)
         && var r := Closed(d, at, false);
            other < |r.store| && r.store[other] == b.store[other] && !OnAllocated(r, other)
  {
    var c := After(b, Open);
    OpenFields(b);
    BystanderOpen(b, at, other, s);
    StrandedUnsafe(c, at, other, s);
    StrandedIsLost(c, at, other, s);
    OpenKeeps(b);
    DeleteKeeps(c, at);
    DeletedFields(c, at, other);
    NothingToSwitch(b, s, Deleted(c, at), at);
  }

  lemma NothingToSwitch(b: Batch, s: Segment, d: Batch, at: nat)
    requires b.phase == Switches && Attempts(b) && b.items[b.next].old_ == [s]
    requires d.phase == b.phase && d.items == b.items && d.next == b.next && d.open.Some?
    requires at < |d.store| && d.store[at] == GONE && L.WellFormed(d.led)
    ensures Legal(d, Close(at, false)) && !Commits(d, at)
  {
  }

  // ---------- interference that only a failure minds ----------

  lemma HeldByTwo(objs: seq<H.Object>, i: nat, j: nat, k: L.Seg)
    requires i < |objs| && j < |objs| && i != j && k in objs[i] && k in objs[j]
    ensures H.Holders(objs, k) >= 2
  {
    var rest := objs[i := []];
    H.HoldersUpdate(objs, i, [], k);
    Rollbacks.CountPositive(objs[i], k);
    assert rest[j] == objs[j] && k in H.Keys(rest);
    H.HeldIffKey(rest, k);
  }

  /** Whoever deletes an object other than the switched one leaves each segment a holder for the time after
      the commit. */
  lemma OthersOutlive(b: Batch, at: nat, other: nat)
    requires Ready(b, at) && other < |b.store| && other != at
    ensures SafeIfCommits(b, Delete(other))
  {
    var objs := Held(b.store);
    ItemObjects(b);
    forall k | k in objs[other] ensures O.Then(objs, NewKeys(b), OldKeys(b), k) >= 1 {
      assert objs[other] in objs;
      H.HeldIffKey(objs, k);
      H.DistinctCount(OldKeys(b), k);
      if k in OldKeys(b) {
        PlannedIsHeld(b, at, k);
        HeldByTwo(objs, at, other, k);
      }
    }
  }

  lemma ThenCommits(c: Batch, at: nat, other: nat)
    requires Ready(c, at) && other < |c.store| && other != at && (forall k :: k in NewKeys(c) ==> k !in Held(c.store)[at])
    ensures var d := Deleted(c, other);
      && Inv(d) && Legal(d, Close(at, false)) && Commits(d, at) && Foreseen(d) && Ranged(CommitOf(d, at))
      && Accounted(CommitOf(d, at))
  {
    var d := Deleted(c, other);
    OthersOutlive(c, at, other);
    DeleteIfCommits(c, other);
    DeleteKeeps(c, other);
    DeletedFields(c, other, at);
    CommitRange(d, at);
    CommitBooks(d, at);
  }

  lemma StaysUnheld(b: Batch, at: nat)
    requires Inv(b) && Legal(b, Open) && b.ours && at < |b.store|
    ensures var c := After(b, Open); c.store == b.store && c.next == b.next && c.items == b.items
    ensures forall k :: k in NewKeys(b) ==> k !in Held(b.store)[at]
  {
    OpenFields(b);
    CopiesUnheld(b);
    forall k | k in NewKeys(b) ensures k !in Held(b.store)[at] {
      assert Held(b.store)[at] in Held(b.store);
    }
  }

  /** The switch of object `at` is open. Right books await its commit, also after somebody has deleted
      object `other`; the commit is legal then and leaves right books. */
  ghost predicate CommitsWell(c: Batch, at: nat, other: nat) {
    && Inv(c) && c.open.Some? && Foreseen(c) && other < |c.store| && SafeIfCommits(c, Delete(other))
    && var d := Deleted(c, other);
       Inv(d) && Legal(d, Close(at, false)) && Commits(d, at) && Accounted(CommitOf(d, at))
  }

  /** Right books await its failure, but not after that delete: the failure leaves the object in a free
      extent. */
  ghost predicate FailsBadly(c: Batch, at: nat, other: nat) {
    && Inv(c) && c.open.Some? && Accounted(c) && other < |c.store| && !SafeIfFails(c, Delete(other))
    && var r := FailOf(Deleted(c, other)); at < |r.store| && !OnAllocated(r, at)
  }

  /** A switch onto the batch's own target, beside which somebody deletes any other object, whatever that
      empties, and which then commits, leaves right books. */
  lemma DeleteThenCommit(b: Batch, at: nat, other: nat)
    requires Inv(b) && Accounted(b) && Legal(b, Open) && Commits(b, at) && b.ours && other < |b.store| && other != at
    ensures CommitsWell(After(b, Open), at, other)
  {
    var c := After(b, Open);
    OpenIsReady(b, at);
    StaysUnheld(b, at);
    OthersOutlive(c, at, other);
    ThenCommits(c, at, other);
  }

  lemma SingleMigrates(s: Segment, copies: seq<Segment>)
    requires |copies| == 1
    ensures Migrate(Object([s], []), [s], copies).Some?
  {
    assert Hits([s], [s]) == 1 + Hits([s][1..], [s]) && Hits([], [s]) == 0;
  }

  lemma FullCopies(b: Batch)
    requires PlanOk(b) && Attempts(b)
    ensures |b.items[b.next].new_| == |b.items[b.next].old_|
  {
    assert ItemShape(b, b.items[b.next]);
  }

  lemma SingleCommits(b: Batch, at: nat, other: nat, s: Segment)
    requires Single(b, at, other, s)
    ensures Commits(b, at)
  {
    FullCopies(b);
    SingleMigrates(s, b.items[b.next].new_);
  }

  lemma NeighbourOpen(b: Batch, at: nat, other: nat, s: Segment, m: Segment)
    requires AloneTogether(b, at, other, s, m)
    ensures var led, d := Opened(b).led, Opened(b).open.value;
      && |led.bits| == |b.led.bits| && s.ext !in d.cleared && L.InRange(led, [Key(m)])
      && !C.Freed(led, [Key(m)]).bits[m.ext]
  {
    SingleOpens(b, at, other, s);
    O.NeighbourFreed(b.led, Alloc(b), NewKeys(b), Key(s), Key(m));
  }

  lemma NeighbourStranded(b: Batch, at: nat, other: nat, s: Segment, m: Segment)
    requires AloneTogether(b, at, other, s, m)
    ensures Stranded(After(b, Open), other, at, s) && Accounted(After(b, Open))
  {
    OpenKeeps(b);
    OpenBooks(b, false);
    OpenFields(b);
    NeighbourOpen(b, at, other, s, m);
    DeletedLedger(After(b, Open), other, m);
  }

  /** Two objects are alone in one extent. While the switch of the first is open, somebody deletes the
      second. If the switch then commits, the books are right; if it fails, the first lies in a free
      extent. So the same delete is safe for one outcome and not for the other. */
  lemma OneDeleteTwoOutcomes(b: Batch, at: nat, other: nat, s: Segment, m: Segment)
    requires AloneTogether(b, at, other, s, m) && b.ours
    ensures CommitsWell(After(b, Open), at, other) && FailsBadly(After(b, Open), at, other)
  {
    SingleCommits(b, at, other, s);
    DeleteThenCommit(b, at, other);
    NeighbourStranded(b, at, other, s, m);
    StrandedUnsafe(After(b, Open), other, at, s);
    StrandedIsLost(After(b, Open), other, at, s);
  }
}
