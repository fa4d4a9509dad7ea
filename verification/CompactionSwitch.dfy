/** The switches of a batch, and the shape of a batch over whole runs. */
module CompactionSwitches {
  import opened Words
  import opened Compactions
  import opened Migrations
  import opened CompactionRuns
  import L = Ledgers
  import H = Holdings
  import R = Runs
  import C = CompactionLedgers
  import U = Undoing
  import W = CompactionWindows
  import O = CompactionOutcomes
  import Rollbacks

  // ---------- copies ----------

  /** An item that is still to be switched has copies that nobody refers to. */
  lemma CopiesAreNew(b: Batch, s: Segment, r: Segment)
    requires PlanOk(b) && b.next < |b.items| && s in b.items[b.next].new_
    requires r.ext == b.eid ==> r in Placed(b)
    ensures Key(s) != Key(r)
  {
    assert ItemShape(b, b.items[b.next]);
    if r.ext == b.eid {
      var j :| 0 <= j < b.next && j < |b.items| && r in b.items[j].new_;
      assert Precedes(b.items[j].new_, b.items[b.next].new_) && ItemShape(b, b.items[j]);
      var i :| 0 <= i < |b.items[j].new_| && b.items[j].new_[i] == r;
    }
  }

  lemma ChainIsObject(segs: seq<Segment>, eid: nat, wm: nat, n: nat)
    requires Chain(segs, eid, wm) && eid < n
    ensures R.ObjectOk(n, KeysOf(segs))
  {
  }

  lemma ItemObjects(b: Batch)
    requires PlanOk(b) && b.next < |b.items| && b.eid < |b.led.bits| == |b.disk| && L.WellFormed(b.led)
    ensures R.ObjectOk(|b.led.bits|, NewKeys(b)) && R.ObjectOk(|b.led.bits|, OldKeys(b))
    ensures L.InRange(b.led, NewKeys(b)) && L.InRange(b.led, OldKeys(b))
  {
    assert ItemShape(b, b.items[b.next]);
    ChainIsObject(b.items[b.next].new_, b.eid, b.wm, |b.led.bits|);
  }

  /** Nobody holds a copy of the next item yet. */
  lemma CopiesUnheld(b: Batch)
    requires Ranged(b) && PlanOk(b) && b.next < |b.items| && RefsPlaced(b)
    ensures forall k :: k in NewKeys(b) ==> k !in H.Keys(Held(b.store))
  {
    forall k | k in NewKeys(b) ensures k !in H.Keys(Held(b.store)) {
      var i :| 0 <= i < |NewKeys(b)| && NewKeys(b)[i] == k;
      if k in H.Keys(Held(b.store)) {
        var r := KeyRef(b.store, k);
        CopiesAreNew(b, b.items[b.next].new_[i], r);
      }
    }
  }

  /** Copies take no more bytes than the watermark. */
  lemma {:induction false} ChainBytes(made: seq<Segment>, eid: nat, wm: nat, ks: set<L.Seg>)
    requires Chain(made, eid, wm)
    requires forall k :: k in ks && k.ext == eid ==> exists s :: s in made && Key(s) == k
    ensures H.Bytes(ks, eid) <= wm
    decreases |made|
  {
    if made == [] {
      H.NoKeyNoBytes(ks, eid);
    } else {
      var last, rest := made[|made| - 1], made[..|made| - 1];
      forall k | k in ks - {Key(last)} && k.ext == eid ensures exists s :: s in rest && Key(s) == k {
        var s :| s in made && Key(s) == k;
        assert s in rest;
      }
      ChainBytes(rest, eid, last.off, ks - {Key(last)});
      if Key(last) in ks {
        H.BytesRemove(ks, Key(last), eid);
      } else {
        assert ks - {Key(last)} == ks;
      }
    }
  }

  lemma {:induction false} NoSum(segs: seq<L.Seg>, e: nat)
    requires forall i :: 0 <= i < |segs| ==> segs[i].ext != e
    ensures H.SegSum(segs, e) == 0
  {
    if segs != [] {
      NoSum(segs[1..], e);
    }
  }

  lemma MadeKey(b: Batch, k: L.Seg)
    requires PlanOk(b) && b.next < |b.items| && RefsPlaced(b) && k.ext == b.eid
    requires k in H.Keys(Held(b.store)) || k in NewKeys(b)
    ensures exists s :: s in b.made && Key(s) == k
  {
    if k in NewKeys(b) {
      assert ItemShape(b, b.items[b.next]);
      var i :| 0 <= i < |NewKeys(b)| && NewKeys(b)[i] == k;
      assert b.items[b.next].new_[i] in b.made;
    } else {
      var r := KeyRef(b.store, k);
      assert r in Placed(b);
      var j :| 0 <= j < b.next && j < |b.items| && r in b.items[j].new_;
      assert ItemShape(b, b.items[j]);
    }
  }

  /** The counters have room for the copies, as long as nobody else lays anything down in the target. */
  lemma CopiesFit(b: Batch)
    requires Accounted(b) && PlanOk(b) && b.next < |b.items| && RefsPlaced(b)
    ensures O.HasRoom(|b.led.bits|, Held(b.store), NewKeys(b))
  {
    var held, ks := H.Keys(Held(b.store)), NewKeys(b);
    ItemObjects(b);
    CopiesUnheld(b);
    forall e | 0 <= e < |b.led.bits| ensures H.Bytes(held, e) + H.SegSum(ks, e) < L.U32 {
      if e == b.eid {
        var all := held + set k | k in ks;
        forall k | k in all && k.ext == b.eid ensures exists s :: s in b.made && Key(s) == k {
          MadeKey(b, k);
        }
        ChainBytes(b.made, b.eid, b.wm, all);
        H.BytesAddAll(held, ks, e);
      } else {
        assert ItemShape(b, b.items[b.next]);
        NoSum(ks, e);
        assert R.LiveAccounts(Books(b), Held(b.store), [], e);
      }
    }
  }

  // ---------- what a commit changes ----------

  /** An item that is attempted commits on an object if and only if the object still refers to all planned
      segments. */
  lemma CommitsIff(b: Batch, at: nat)
    requires Inv(b) && Attempts(b) && at < |b.store|
    ensures Commits(b, at) <==> forall s :: s in b.items[b.next].old_ ==> s in Listed(b.store[at])
  {
    var it := b.items[b.next];
    assert ItemShape(b, it);
    HeldInRange(b, at);
    DistinctKeys(it.old_);
    PassesIff(b.store[at], it.old_, it.new_);
  }

  /** The object after the switch. */
  function Switched(b: Batch, at: nat): Object
    requires Commits(b, at)
  {
    Migrate(b.store[at], b.items[b.next].old_, b.items[b.next].new_).value
  }

  lemma SwitchedHeld(b: Batch, at: nat)
    requires Commits(b, at)
    ensures Held(CommitOf(b, at).store) == Held(b.store)[at := KeysOf(Listed(Switched(b, at)))]
  {
    HeldUpdate(b.store, at, Switched(b, at));
  }

  /** What a committed switch refers to was referred to before, or is a copy. */
  lemma RefsAfterSwitch(b: Batch, at: nat, s: Segment)
    requires Ranged(b) && Commits(b, at) && s in Refs(CommitOf(b, at).store)
    ensures s in Refs(b.store) || s in b.items[b.next].new_
  {
    var it, o := b.items[b.next], b.store[at];
    RefsAfterUpdate(b.store, at, Switched(b, at), s);
    if s in Listed(Switched(b, at)) {
      HeldInRange(b, at);
      Planned(o, it.old_, it.new_);
      RemapListed(o, it.old_, it.new_);
      RemapMembers(Listed(o), it.old_, it.new_, s);
      RefsOfObject(b.store, at);
    }
  }

  /** The switched object lists its copies, and else only what it listed before and was not planned. */
  lemma SwitchedLists(b: Batch, at: nat)
    requires Ranged(b) && Commits(b, at)
    ensures forall s :: s in Listed(Switched(b, at)) <==>
      (s in Listed(b.store[at]) && s !in b.items[b.next].old_) || s in b.items[b.next].new_
    ensures forall s :: s in b.items[b.next].old_ ==> s in Listed(b.store[at])
  {
    var it, o := b.items[b.next], b.store[at];
    HeldInRange(b, at);
    Planned(o, it.old_, it.new_);
    RemapListed(o, it.old_, it.new_);
    forall s ensures s in Listed(Switched(b, at)) <==> (s in Listed(o) && s !in it.old_) || s in it.new_ {
      RemapMembers(Listed(o), it.old_, it.new_, s);
    }
  }

  /** A commit stays in range, unless its object lists a copy already; it cannot while nobody but the batch
      refers to the target. */
  lemma CommitRange(b: Batch, at: nat)
    requires Inv(b) && Commits(b, at) && forall k :: k in NewKeys(b) ==> k !in Held(b.store)[at]
    ensures Ranged(CommitOf(b, at))
  {
    var it, o := b.items[b.next], b.store[at];
    assert ItemShape(b, it);
    ItemObjects(b);
    HeldInRange(b, at);
    SwitchedHeld(b, at);
    KeyMembers(it.new_);
    KeyMembers(Listed(o));
    forall s, r | s in it.new_ && r in Listed(o) ensures Key(s) != Key(r) {
      assert Key(s) in NewKeys(b) && Key(r) in Held(b.store)[at];
    }
    MigrateReplaces(|b.led.bits|, o, it.old_, it.new_);
    var was, now := Held(b.store), Held(CommitOf(b, at).store);
    forall j | 0 <= j < |now| ensures R.ObjectOk(|b.led.bits|, now[j]) {
      assert R.ObjectOk(|b.led.bits|, was[j]);
    }
    forall s | s in Refs(CommitOf(b, at).store) ensures Fits(b.disk, s) {
      RefsAfterSwitch(b, at, s);
    }
  }

  /** No copy is in the place of a segment that the object keeps. */
  lemma Exclusive(b: Batch, at: nat, k: L.Seg)
    requires Inv(b) && Commits(b, at) && Ranged(CommitOf(b, at))
    requires k in Held(b.store)[at] && k !in OldKeys(b)
    ensures k !in NewKeys(b)
  {
    var it, o := b.items[b.next], b.store[at];
    HeldInRange(b, at);
    HeldInRange(CommitOf(b, at), at);
    Planned(o, it.old_, it.new_);
    RemapListed(o, it.old_, it.new_);
    RemapExclusive(Listed(o), it.old_, it.new_, k);
  }

  /** In the allocator's terms a commit exchanges the planned segments for the copies. */
  lemma CommitExchanges(b: Batch, at: nat)
    requires Inv(b) && Commits(b, at) && Ranged(CommitOf(b, at))
    ensures O.Exchanged(Held(b.store)[at], NewKeys(b), OldKeys(b), Held(CommitOf(b, at).store)[at])
  {
    var it, was, now := b.items[b.next], Held(b.store)[at], Held(CommitOf(b, at).store)[at];
    ItemObjects(b);
    HeldInRange(b, at);
    HeldInRange(CommitOf(b, at), at);
    SwitchedLists(b, at);
    forall k
      ensures Rollbacks.Count(now, k) == Rollbacks.Count(was, k) + Rollbacks.Count(NewKeys(b), k) - Rollbacks.Count(OldKeys(b), k)
    {
      H.DistinctCount(was, k);
      H.DistinctCount(now, k);
      H.DistinctCount(NewKeys(b), k);
      H.DistinctCount(OldKeys(b), k);
      CommitMember(b, at, k);
      if k in was && k !in OldKeys(b) {
        Exclusive(b, at, k);
      }
    }
  }

  lemma CommitMember(b: Batch, at: nat, k: L.Seg)
    requires Inv(b) && Commits(b, at) && Ranged(CommitOf(b, at))
    ensures k in Held(CommitOf(b, at).store)[at] <==> (k in Held(b.store)[at] && k !in OldKeys(b)) || k in NewKeys(b)
    ensures k in OldKeys(b) ==> k in Held(b.store)[at]
  {
    var it := b.items[b.next];
    HeldInRange(b, at);
    SwitchedLists(b, at);
    DistinctKeys(Listed(b.store[at]));
    KeyMembers(Listed(b.store[at]));
    KeyMembers(Listed(Switched(b, at)));
    KeyMembers(it.old_);
    KeyMembers(it.new_);
  }

  // ---------- progress of the batch ----------

  /** What opening a switch, its failure and the end of the batch leave alone. */
  ghost predicate NextOf(b: Batch, b': Batch) {
    && Inv(b) && b.phase == Switches && b.next <= b'.next <= |b.items|
    && b' == b.(led := b'.led, next := b'.next, open := b'.open, pending := b'.pending, phase := b'.phase,
                ours := b'.ours)
    && |b'.led.bits| == |b.led.bits| && b'.led.pins == b.led.pins
    && b'.ours == (b.ours && b'.led.bits[b.eid])
  }

  /** Nothing but the ledger and the batch's progress changes; the target's bit says whose it is. */
  lemma NextKeeps(b: Batch, b': Batch)
    requires NextOf(b, b') && Ranged(b') && PhaseOk(b') && OpenOk(b')
    ensures Inv(b')
  {
    forall j | 0 <= j < |b.items| ensures ItemShape(b', b'.items[j]) {
      assert ItemShape(b, b.items[j]);
    }
    if b'.ours {
      forall s | s in Refs(b'.store) && s.ext == b.eid ensures s in Placed(b') {
        assert s in Placed(b);
      }
    }
  }

  /** The switch of the item that comes next, in the allocator's terms. */
  lemma OpenIsSwitch(b: Batch)
    requires Inv(b) && Legal(b, Open)
    ensures var b' := Opened(b);
      && b'.led == C.Committed(b.led, Alloc(b), NewKeys(b), OldKeys(b))
      && b'.open.Some? && L.DraftInRange(b'.led, b'.open.value) && b'.led.pins == b.led.pins
      && W.SwitchDraft(b'.open.value, Alloc(b), NewKeys(b), OldKeys(b), |b.led.bits|)
  {
    C.MovedShape(b.led, Alloc(b), NewKeys(b), OldKeys(b));
    C.CommittedShape(b.led, Alloc(b), NewKeys(b), OldKeys(b));
    W.MovedDraft(b.led, Alloc(b), NewKeys(b), OldKeys(b));
  }

  /** Opening a switch keeps the shape, whatever has become of its object and of the target. */
  lemma OpenKeeps(b: Batch)
    requires Inv(b) && Legal(b, Open)
    ensures Inv(After(b, Open))
  {
    OpenIsSwitch(b);
    NextKeeps(b, After(b, Open));
  }

  lemma FailPhase(b: Batch)
    requires Inv(b) && b.open.Some?
    ensures NextOf(b, FailOf(b)) && PhaseOk(FailOf(b)) && Ranged(FailOf(b))
  {
    U.RollbackShape(b.led, b.open.value);
    ExpandOne(b.eid);
  }

  lemma GivenBack(b: Batch)
    requires Inv(b) && b.open.Some? && b.commits == 0
    ensures !Books(b).bits[b.eid]
  {
    U.RollbackShape(b.led, b.open.value);
    ExpandOne(b.eid);
    assert b.eid in L.Ids(b.open.value);
  }

  /** So does its failure; the first one gives the target back. */
  lemma FailKeeps(b: Batch)
    requires Inv(b) && b.open.Some?
    ensures Inv(FailOf(b)) && FailOf(b).led == Books(b)
    ensures b.commits == 0 ==> !FailOf(b).led.bits[b.eid] && FailOf(b).phase == Done
  {
    FailPhase(b);
    if b.commits == 0 {
      GivenBack(b);
    }
    NextKeeps(b, FailOf(b));
  }

  lemma FinishKeeps(b: Batch)
    requires Inv(b) && Legal(b, Finish)
    ensures Inv(Finished(b))
  {
    ExpandOne(b.eid);
    if b.pending {
      Rollbacks.UnallocateAt(b.led, [b.eid]);
    }
    NextKeeps(b, Finished(b));
  }

  lemma CommitTarget(b: Batch, at: nat)
    requires Inv(b) && b.open.Some? && b.ours && Commits(b, at)
    ensures TargetOk(CommitOf(b, at))
  {
    var b' := CommitOf(b, at);
    forall s | s in Refs(b'.store) && s.ext == b.eid ensures s in Placed(b') {
      RefsAfterSwitch(b, at, s);
      if s in Refs(b.store) {
        assert s in Placed(b);
      }
    }
  }

  /** And so does a commit, as long as no object comes to list a segment twice. */
  lemma CommitKeeps(b: Batch, at: nat)
    requires Inv(b) && b.open.Some? && Commits(b, at) && Ranged(CommitOf(b, at))
    ensures Inv(CommitOf(b, at))
  {
    var b' := CommitOf(b, at);
    forall j | 0 <= j < |b.items| ensures ItemShape(b', b'.items[j]) {
      assert ItemShape(b, b.items[j]);
    }
    if b.ours {
      CommitTarget(b, at);
    }
  }

  // ---------- any step ----------

  /** The batch goes on without copying or switching anything. */
  ghost predicate Moves(b: Batch, b': Batch) {
    b' == b.(busy := b'.busy, part := b'.part, crcs := b'.crcs, cur := b'.cur, phase := b'.phase, next := b'.next)
  }

  lemma PlanMoves(b: Batch, b': Batch)
    requires PlanOk(b) && Moves(b, b') && b.cur <= b'.cur && b.next <= b'.next <= |b.items|
    requires !b'.busy && b'.cur < |b.items| ==> b.items[b'.cur].new_ == []
    ensures PlanOk(b')
  {
    forall j | 0 <= j < |b.items| ensures ItemShape(b', b'.items[j]) {
      assert ItemShape(b, b.items[j]);
    }
  }

  lemma TargetMoves(b: Batch, b': Batch)
    requires PlanOk(b) && Moves(b, b') && b.next <= b'.next && (b.ours ==> TargetOk(b))
    ensures b'.ours ==> TargetOk(b')
  {
    if b.ours {
      forall s | s in Refs(b'.store) && s.ext == b.eid ensures s in Placed(b') {
        assert s in Placed(b);
      }
    }
  }

  lemma BeginKeeps(b: Batch)
    requires Inv(b) && Legal(b, Begin)
    ensures Inv(After(b, Begin))
  {
    var b', it := After(b, Begin), b.items[b.cur];
    assert ItemShape(b, it);
    assert it.old_[0..] == it.old_ && b.disk[b.eid][b.wm..b.wm + 0] == [];
    PlanMoves(b, b');
    TargetMoves(b, b');
  }

  lemma MoveKeeps(b: Batch, p: Step)
    requires Inv(b) && Legal(b, p) && (p.Pass? || p.EndCopies? || p.Skip?)
    ensures Inv(After(b, p))
  {
    PlanMoves(b, After(b, p));
    TargetMoves(b, After(b, p));
  }

  lemma CloseKeeps(b: Batch, at: nat, fails: bool)
    requires Inv(b) && Legal(b, Close(at, fails)) && Ranged(After(b, Close(at, fails)))
    ensures Inv(After(b, Close(at, fails)))
  {
    if Commit(b, Close(at, fails)) {
      CommitKeeps(b, at);
    } else {
      FailKeeps(b);
    }
  }

  predicate Own(p: Step) {
    p.Begin? || p.Pass? || p.EndCopies? || p.Skip? || p.Chunk? || p.Open? || p.Close? || p.Finish?
  }

  lemma OwnKeeps(b: Batch, p: Step)
    requires Inv(b) && Legal(b, p) && Own(p) && (Commit(b, p) ==> Ranged(After(b, p)))
    ensures Inv(After(b, p))
  {
    match p
    case Begin => BeginKeeps(b);
    case Chunk => ChunkKeeps(b);
    case Open => OpenKeeps(b);
    case Close(at, fails) =>
      if !Commit(b, p) {
        FailKeeps(b);
      }
      CloseKeeps(b, at, fails);
    case Finish => FinishKeeps(b);
    case Pass => MoveKeeps(b, p);
    case EndCopies => MoveKeeps(b, p);
    case Skip => MoveKeeps(b, p);
    case _ =>
  }

  lemma OtherKeeps(b: Batch, p: Step)
    requires Inv(b) && Legal(b, p) && !Own(p)
    ensures Inv(After(b, p))
  {
    match p
    case Delete(id) => DeleteKeeps(b, id);
    case Copy(o) => CopyKeeps(b, o);
    case Put(ids, skipped, ranges, o, disk) => PutKeeps(b, ids, skipped, ranges, o, disk);
    case Pin(ids) => PinKeeps(b, ids);
    case Unpin(ids) => UnpinKeeps(b, ids);
    case _ =>
  }

  /** No step takes the shape away, whatever it does to the books, as long as no commit makes an object list
      a segment twice. */
  lemma StepKeeps(b: Batch, p: Step)
    requires Inv(b) && Legal(b, p) && (Commit(b, p) ==> Ranged(After(b, p)))
    ensures Inv(After(b, p))
  {
    if Own(p) {
      OwnKeeps(b, p);
    } else {
      OtherKeeps(b, p);
    }
  }

  /** While the target is the batch's no commit does. */
  lemma OursKeepsRange(b: Batch, p: Step)
    requires Inv(b) && Legal(b, p) && (Commit(b, p) ==> b.ours)
    ensures Ranged(After(b, p))
  {
    if Commit(b, p) {
      CopiesUnheld(b);
      forall k | k in NewKeys(b) ensures k !in Held(b.store)[p.at] {
        assert Held(b.store)[p.at] in Held(b.store);
      }
      CommitRange(b, p.at);
    } else {
      StepKeeps(b, p);
    }
  }

  // ---------- runs ----------

  /** Any run of legal steps. Extents, objects and drafts are in range in its states, which only a commit
      onto a lost target could change. */
  ghost predicate RunLegal(b: Batch, run: seq<Step>)
    decreases |run|
  {
    Ranged(b) && (run == [] || (Legal(b, run[0]) && RunLegal(After(b, run[0]), run[1..])))
  }

  ghost function AfterAll(b: Batch, run: seq<Step>): Batch
    requires RunLegal(b, run)
    decreases |run|
  {
    if run == [] then b else AfterAll(After(b, run[0]), run[1..])
  }

  lemma {:induction false} RunKeeps(b: Batch, run: seq<Step>)
    requires Inv(b) && RunLegal(b, run)
    ensures Inv(AfterAll(b, run))
    decreases |run|
  {
    if run != [] {
      StepKeeps(b, run[0]);
      RunKeeps(After(b, run[0]), run[1..]);
    }
  }
}
