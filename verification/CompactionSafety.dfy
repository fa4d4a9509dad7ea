/** The books of a batch over whole runs, exactly.

    A switch is applied to the allocator before anybody knows whether it will commit, and others go on
    meanwhile. So there are two books while it is open: those that a failure will leave, and those that a
    commit will leave. The run decides which of them count; each step keeps those right or it does not, and
    what decides it can be checked beforehand. */
module CompactionSafety {
  import opened Words
  import opened Compactions
  import opened Migrations
  import opened CompactionRuns
  import opened CompactionSwitches
  import opened CompactionReads
  import L = Ledgers
  import H = Holdings
  import R = Runs
  import C = CompactionLedgers
  import U = Undoing
  import W = CompactionWindows
  import O = CompactionOutcomes
  import Rollbacks

  // ---------- one step ----------

  /** The books are right for this outcome of the open switch; without one there is no difference. */
  ghost predicate BooksFor(b: Batch, commits: bool) {
    if commits then Foreseen(b) else Accounted(b)
  }

  /** The object keeps out of the extents that the open draft has itself allocated. */
  ghost predicate KeepsOut(b: Batch, o: Object)
    requires b.open.Some?
  {
    forall s :: s in Listed(o) ==> s.ext !in L.Ids(b.open.value)
  }

  /** What a step must observe beside a switch that will fail: a delete and a copy are clean, a put keeps out
      of a target that the switch has just allocated, unpinning frees nothing that the switch would give
      back. */
  ghost predicate SafeIfFails(b: Batch, p: Step)
    requires Ranged(b) && Legal(b, p) && b.open.Some?
  {
    match p
    case Delete(id) => W.CleanDelete(b.led, b.open.value, Held(b.store), id)
    case Copy(o) => W.CleanCopy(b.led, b.open.value, KeysOf(Listed(o)))
    case Put(_, _, _, o, _) => KeepsOut(b, o)
    case Unpin(ids) => W.Spares(b.led, R.UnpinAll(b.led, ids), b.open.value, Held(b.store))
    case _ => true
  }

  /** What it must observe beside one that will commit: whoever deletes or copies an object leaves each of
      its segments a holder for the time after the switch, and new segments are none of the copies. */
  ghost predicate SafeIfCommits(b: Batch, p: Step)
    requires Ranged(b) && Legal(b, p) && b.open.Some?
  {
    match p
    case Delete(id) => O.Outlived(Held(b.store), NewKeys(b), OldKeys(b), Held(b.store)[id])
    case Copy(o) => O.Outlived(Held(b.store), NewKeys(b), OldKeys(b), KeysOf(Listed(o)))
    case Put(_, _, _, o, _) => KeepsApart(b, o)
    case _ => true
  }

  ghost predicate KeepsApart(b: Batch, o: Object)
    requires Ranged(b) && b.open.Some?
  {
    O.PutsApart(|b.led.bits|, Held(b.store), NewKeys(b), OldKeys(b), KeysOf(Listed(o)))
  }

  ghost predicate PutSafe(b: Batch, o: Object, commits: bool)
    requires Ranged(b)
  {
    b.open.Some? ==> if commits then KeepsApart(b, o) else KeepsOut(b, o)
  }

  /** Between switches only the opening of one that will commit can go wrong: its planned segments must all
      be held, and its copies lie in an allocated target and be held by nobody. */
  ghost predicate Safe(b: Batch, p: Step, commits: bool)
    requires Ranged(b) && Legal(b, p)
  {
    if b.open.Some? then (if commits then SafeIfCommits(b, p) else SafeIfFails(b, p))
    else p.Open? && commits ==> O.CleanOpen(b.led, Held(b.store), NewKeys(b), OldKeys(b))
  }

  /** Outside an open switch the books are the ledger. */
  lemma SameBooks(b: Batch, b': Batch, commits: bool)
    requires BooksFor(b, commits) && b.open.None? && Ranged(b')
    requires b'.led == b.led && b'.store == b.store && b'.open == b.open
    ensures BooksFor(b', commits)
  {
  }

  lemma DeleteIfFails(b: Batch, id: nat)
    requires Accounted(b) && OpenOk(b) && b.open.Some? && id < |b.store|
    ensures Accounted(Deleted(b, id)) <==> W.CleanDelete(b.led, b.open.value, Held(b.store), id)
  {
    HeldInRange(b, id);
    DeleteShape(b, id);
    BooksIff(b);
    BooksIff(Deleted(b, id));
    W.DeleteIff(b.led, b.open.value, Held(b.store), id);
  }

  lemma DeleteIfCommits(b: Batch, id: nat)
    requires Foreseen(b) && b.open.Some? && id < |b.store|
    ensures Foreseen(Deleted(b, id)) <==> O.Outlived(Held(b.store), NewKeys(b), OldKeys(b), Held(b.store)[id])
  {
    HeldInRange(b, id);
    DeleteShape(b, id);
    O.DeleteAhead(b.led, Held(b.store), id, NewKeys(b), OldKeys(b));
  }

  lemma DeleteOutside(b: Batch, id: nat)
    requires Accounted(b) && b.open.None? && id < |b.store|
    ensures Accounted(Deleted(b, id))
  {
    HeldInRange(b, id);
    DeleteShape(b, id);
    C.FreedAccounts(b.led, Held(b.store), id);
  }

  lemma DeleteBooks(b: Batch, id: nat, commits: bool)
    requires Ranged(b) && OpenOk(b) && id < |b.store| && BooksFor(b, commits)
    ensures BooksFor(After(b, Delete(id)), commits) <==> Safe(b, Delete(id), commits)
  {
    if b.open.None? {
      DeleteOutside(b, id);
    } else if commits {
      DeleteIfCommits(b, id);
    } else {
      DeleteIfFails(b, id);
    }
  }

  /** What a copy changes, in the allocator's terms. */
  lemma CopyFacts(b: Batch, o: Object)
    requires Ranged(b) && Legal(b, Copy(o))
    ensures var b', ks := Copied(b, o), KeysOf(Listed(o));
      && Ranged(b') && b'.open == b.open && b'.items == b.items && b'.next == b.next
      && Held(b'.store) == Held(b.store) + [ks]
      && R.ObjectOk(|b.led.bits|, ks) && L.InRange(b.led, ks)
      && b'.led == L.ShareObject(L.Txn(b.led, L.EMPTY_DRAFT), ks).led
      && forall i :: 0 <= i < |ks| ==> ks[i] in H.Keys(Held(b.store))
  {
    CopyShape(b, o);
    SharedOk(b, o);
  }

  lemma CopyIfFails(b: Batch, o: Object)
    requires Accounted(b) && OpenOk(b) && b.open.Some? && Legal(b, Copy(o))
    ensures Accounted(Copied(b, o)) <==> W.CleanCopy(b.led, b.open.value, KeysOf(Listed(o)))
  {
    CopyFacts(b, o);
    BooksIff(b);
    BooksIff(Copied(b, o));
    W.CopyIff(b.led, b.open.value, Held(b.store), KeysOf(Listed(o)));
  }

  lemma CopyIfCommits(b: Batch, o: Object)
    requires Foreseen(b) && b.open.Some? && Legal(b, Copy(o))
    ensures Foreseen(Copied(b, o)) <==> O.Outlived(Held(b.store), NewKeys(b), OldKeys(b), KeysOf(Listed(o)))
  {
    CopyFacts(b, o);
    O.CopyAhead(b.led, Held(b.store), NewKeys(b), OldKeys(b), KeysOf(Listed(o)));
  }

  lemma CopyOutside(b: Batch, o: Object)
    requires Accounted(b) && b.open.None? && Legal(b, Copy(o))
    ensures Accounted(Copied(b, o))
  {
    CopyFacts(b, o);
    R.CopySpace(L.Txn(b.led, L.EMPTY_DRAFT), Held(b.store), KeysOf(Listed(o)), []);
  }

  lemma CopyBooks(b: Batch, o: Object, commits: bool)
    requires Ranged(b) && OpenOk(b) && Legal(b, Copy(o)) && BooksFor(b, commits)
    ensures BooksFor(After(b, Copy(o)), commits) <==> Safe(b, Copy(o), commits)
  {
    if b.open.None? {
      CopyOutside(b, o);
    } else if commits {
      CopyIfCommits(b, o);
    } else {
      CopyIfFails(b, o);
    }
  }

  lemma PutBesideOpen(b: Batch, ids: seq<nat>, skipped: set<nat>, ranges: seq<(nat, nat)>, o: Object, disk: Disk)
    requires Accounted(b) && b.open.Some? && PutLegal(b, ids, skipped, ranges, o, disk)
    ensures L.InRange(b.led, KeysOf(Listed(o)))
    ensures var ks := KeysOf(Listed(o));
      U.Balanced(C.Stored(b.led, ids, skipped, ranges, ks), b.open.value, Held(b.store) + [ks], []) <==> KeepsOut(b, o)
  {
    var ks := KeysOf(Listed(o));
    BooksIff(b);
    if KeepsOut(b, o) {
      forall i | 0 <= i < |ks| ensures ks[i].ext !in L.Ids(b.open.value) {
        assert Listed(o)[i] in Listed(o);
      }
      W.PutBeside(b.led, b.open.value, Held(b.store), ids, skipped, ranges, ks);
    } else {
      var s :| s in Listed(o) && s.ext in L.Ids(b.open.value);
      var i :| 0 <= i < |Listed(o)| && Listed(o)[i] == s;
      W.PutOnOwn(C.Stored(b.led, ids, skipped, ranges, ks), b.open.value, Held(b.store), ks, i);
    }
  }

  lemma PutIfFails(b: Batch, ids: seq<nat>, skipped: set<nat>, ranges: seq<(nat, nat)>, o: Object, disk: Disk)
    requires Accounted(b) && b.open.Some? && PutLegal(b, ids, skipped, ranges, o, disk)
    ensures Accounted(Stored(b, ids, skipped, ranges, o, disk)) <==> KeepsOut(b, o)
  {
    PutShape(b, ids, skipped, ranges, o, disk);
    BooksIff(Stored(b, ids, skipped, ranges, o, disk));
    PutBesideOpen(b, ids, skipped, ranges, o, disk);
  }

  lemma PutIfCommits(b: Batch, ids: seq<nat>, skipped: set<nat>, ranges: seq<(nat, nat)>, o: Object, disk: Disk)
    requires Foreseen(b) && b.open.Some? && PutLegal(b, ids, skipped, ranges, o, disk)
    ensures Foreseen(Stored(b, ids, skipped, ranges, o, disk)) <==> KeepsApart(b, o)
  {
    PutShape(b, ids, skipped, ranges, o, disk);
    O.PutAhead(b.led, Held(b.store), NewKeys(b), OldKeys(b), ids, skipped, ranges, KeysOf(Listed(o)));
  }

  lemma PutOutside(b: Batch, ids: seq<nat>, skipped: set<nat>, ranges: seq<(nat, nat)>, o: Object, disk: Disk)
    requires Accounted(b) && b.open.None? && PutLegal(b, ids, skipped, ranges, o, disk)
    ensures Accounted(Stored(b, ids, skipped, ranges, o, disk))
  {
    PutShape(b, ids, skipped, ranges, o, disk);
    C.StoredAccounts(b.led, Held(b.store), ids, skipped, ranges, KeysOf(Listed(o)));
  }

  lemma PutBooks(b: Batch, ids: seq<nat>, skipped: set<nat>, ranges: seq<(nat, nat)>, o: Object, disk: Disk, commits: bool)
    requires Ranged(b) && PutLegal(b, ids, skipped, ranges, o, disk) && BooksFor(b, commits)
    ensures BooksFor(Stored(b, ids, skipped, ranges, o, disk), commits) <==> PutSafe(b, o, commits)
  {
    if b.open.None? {
      PutOutside(b, ids, skipped, ranges, o, disk);
    } else if commits {
      PutIfCommits(b, ids, skipped, ranges, o, disk);
    } else {
      PutIfFails(b, ids, skipped, ranges, o, disk);
    }
  }

  lemma PutStep(b: Batch, p: Step, commits: bool)
    requires Ranged(b) && p.Put? && Legal(b, p)
    ensures After(b, p) == Stored(b, p.ids, p.skipped, p.ranges, p.o, p.disk)
    ensures Safe(b, p, commits) <==> PutSafe(b, p.o, commits)
  {
  }

  /** Where only bits and pins change. */
  lemma BitsBooks(b: Batch, b': Batch, commits: bool)
    requires b' == b.(led := b'.led, ours := b'.ours) && Ranged(b') && BooksFor(b, commits)
    requires b'.led.live == b.led.live && b'.led.shared == b.led.shared && |b'.led.bits| == |b.led.bits|
    requires forall e :: 0 <= e < |b.led.bits| && b'.led.bits[e] ==> b.led.bits[e]
    requires forall e :: 0 <= e < |b.led.bits| && b.led.bits[e] && !b'.led.bits[e] ==> b.led.live[e] == 0
    ensures BooksFor(b', commits) <==>
      (b.open.Some? && !commits ==> W.Spares(b.led, b'.led, b.open.value, Held(b.store)))
  {
    if b.open.None? {
      R.MoreSpace(b.led, b'.led, Held(b.store), []);
    } else if commits {
      O.BitsAhead(b.led, b'.led, Held(b.store), NewKeys(b), OldKeys(b));
    } else {
      BooksIff(b);
      BooksIff(b');
      W.BitsIff(b.led, b'.led, b.open.value, Held(b.store));
    }
  }

  lemma PinBooks(b: Batch, ids: seq<nat>, commits: bool)
    requires Ranged(b) && Legal(b, Pin(ids)) && BooksFor(b, commits) && Ranged(After(b, Pin(ids)))
    ensures BooksFor(After(b, Pin(ids)), commits)
  {
    BitsBooks(b, After(b, Pin(ids)), commits);
  }

  lemma UnpinBooks(b: Batch, ids: seq<nat>, commits: bool)
    requires Ranged(b) && Legal(b, Unpin(ids)) && BooksFor(b, commits) && Ranged(After(b, Unpin(ids)))
    ensures BooksFor(After(b, Unpin(ids)), commits) <==> Safe(b, Unpin(ids), commits)
  {
    UnpinShape(b.led, ids);
    BitsBooks(b, After(b, Unpin(ids)), commits);
  }

  lemma EmptyTarget(b: Batch)
    requires Accounted(b) && NoneIn(b.store, b.eid)
    ensures Books(b).live[b.eid] == 0
  {
    assert R.LiveAccounts(Books(b), Held(b.store), [], b.eid);
    forall k | k in H.Keys(Held(b.store)) ensures k.ext != b.eid {
      var s := KeyRef(b.store, k);
    }
    H.NoKeyNoBytes(H.Keys(Held(b.store)), b.eid);
  }

  lemma AllocIsEmpty(b: Batch)
    requires Inv(b) && Accounted(b) && b.open.None? && b.phase == Switches
    ensures forall e :: e in L.Expand(Alloc(b)) ==> e < |b.led.bits| && b.led.live[e] == 0
  {
    ExpandOne(b.eid);
    if b.pending {
      EmptyTarget(b);
    }
  }

  lemma OpenBooks(b: Batch, commits: bool)
    requires Inv(b) && Legal(b, Open) && BooksFor(b, commits)
    ensures BooksFor(After(b, Open), commits) <==> Safe(b, Open, commits)
  {
    OpenIsSwitch(b);
    OpenKeeps(b);
    ItemObjects(b);
    if commits {
      O.OpenAhead(b.led, Held(b.store), Alloc(b), NewKeys(b), OldKeys(b));
    } else {
      AllocIsEmpty(b);
      W.OpenBalanced(b.led, Held(b.store), Alloc(b), NewKeys(b), OldKeys(b));
      BooksIff(After(b, Open));
    }
  }

  /** A commit leaves right books if and only if they were right for it before. */
  lemma CommitBooks(b: Batch, at: nat)
    requires Inv(b) && b.open.Some? && Commits(b, at) && Ranged(CommitOf(b, at))
    ensures Accounted(CommitOf(b, at)) <==> Foreseen(b)
  {
    SwitchedHeld(b, at);
    CommitExchanges(b, at);
    O.CommitExactly(b.led, Held(b.store), at, NewKeys(b), OldKeys(b), KeysOf(Listed(Switched(b, at))));
  }

  /** A failure leaves right books if and only if they were right for it before. */
  lemma FailBooks(b: Batch)
    requires Inv(b) && b.open.Some?
    ensures Accounted(FailOf(b)) <==> Accounted(b)
  {
    FailKeeps(b);
  }

  lemma FinishBooks(b: Batch)
    requires Inv(b) && Legal(b, Finish) && Accounted(b)
    ensures Accounted(Finished(b))
  {
    FinishKeeps(b);
    ExpandOne(b.eid);
    if b.pending {
      EmptyTarget(b);
      Rollbacks.UnallocateAt(b.led, [b.eid]);
      R.MoreSpace(b.led, Finished(b).led, Held(b.store), []);
    }
  }

  /** When a switch closes, the books become right if and only if they were right for the outcome that it
      then has. */
  lemma CloseBooks(b: Batch, at: nat, fails: bool)
    requires Inv(b) && Legal(b, Close(at, fails)) && Ranged(After(b, Close(at, fails)))
    ensures Accounted(After(b, Close(at, fails))) <==> BooksFor(b, Commit(b, Close(at, fails)))
  {
    if Commit(b, Close(at, fails)) {
      CommitBooks(b, at);
    } else {
      FailBooks(b);
    }
  }

  lemma MoveBooks(b: Batch, p: Step, commits: bool)
    requires Ranged(b) && Legal(b, p) && (p.Begin? || p.Chunk? || p.Pass? || p.EndCopies? || p.Skip?)
    requires b.open.None? && Ranged(After(b, p)) && BooksFor(b, commits)
    ensures BooksFor(After(b, p), commits)
  {
    SameBooks(b, After(b, p), commits);
  }

  lemma OwnBooks(b: Batch, p: Step, commits: bool)
    requires Inv(b) && Legal(b, p) && Own(p) && Ranged(After(b, p)) && BooksFor(b, commits)
    requires p.Close? ==> commits == Commit(b, p)
    ensures BooksFor(After(b, p), commits) <==> Safe(b, p, commits)
  {
    match p
    case Open => OpenBooks(b, commits);
    case Close(at, fails) => CloseBooks(b, at, fails);
    case Finish => FinishBooks(b);
    case Begin => MoveBooks(b, p, commits);
    case Chunk => MoveBooks(b, p, commits);
    case Pass => MoveBooks(b, p, commits);
    case EndCopies => MoveBooks(b, p, commits);
    case Skip => MoveBooks(b, p, commits);
    case _ =>
  }

  lemma OtherBooks(b: Batch, p: Step, commits: bool)
    requires Ranged(b) && OpenOk(b) && Legal(b, p) && !Own(p) && BooksFor(b, commits) && Ranged(After(b, p))
    ensures BooksFor(After(b, p), commits) <==> Safe(b, p, commits)
  {
    if p.Put? {
      PutStep(b, p, commits);
      PutBooks(b, p.ids, p.skipped, p.ranges, p.o, p.disk, commits);
    } else if p.Delete? {
      DeleteBooks(b, p.id, commits);
    } else if p.Copy? {
      CopyBooks(b, p.o, commits);
    } else {
      PinsBooks(b, p, commits);
    }
  }

  lemma PinsBooks(b: Batch, p: Step, commits: bool)
    requires Ranged(b) && Legal(b, p) && (p.Pin? || p.Unpin?) && BooksFor(b, commits) && Ranged(After(b, p))
    ensures BooksFor(After(b, p), commits) <==> Safe(b, p, commits)
  {
    match p
    case Pin(ids) => PinBooks(b, ids, commits);
    case Unpin(ids) => UnpinBooks(b, ids, commits);
  }

  /** A step keeps the books right for an outcome of the switch if and only if it is safe for it. */
  lemma StepBooks(b: Batch, p: Step, commits: bool)
    requires Inv(b) && Legal(b, p) && Ranged(After(b, p)) && BooksFor(b, commits)
    requires p.Close? ==> commits == Commit(b, p)
    ensures BooksFor(After(b, p), commits) <==> Safe(b, p, commits)
  {
    if Own(p) {
      OwnBooks(b, p, commits);
    } else {
      OtherBooks(b, p, commits);
    }
  }

  // ---------- runs ----------

  /** How the switch that is open, or else the next one, ends in this run; `end` stands for the outcome of
      one that is still open when the run is over. */
  ghost predicate Will(b: Batch, run: seq<Step>, end: bool)
    requires RunLegal(b, run)
    decreases |run|
  {
    if run == [] then end
    else if run[0].Close? then Commit(b, run[0])
    else Will(After(b, run[0]), run[1..], end)
  }

  /** After every prefix of the run the books are right for the outcome that the run gives the switch. */
  ghost predicate AllBalanced(b: Batch, run: seq<Step>, end: bool)
    requires RunLegal(b, run)
    decreases |run|
  {
    BooksFor(b, Will(b, run, end)) && (run == [] || AllBalanced(After(b, run[0]), run[1..], end))
  }

  /** Every step of the run is safe for that outcome. */
  ghost predicate AllSafe(b: Batch, run: seq<Step>, end: bool)
    requires RunLegal(b, run)
    decreases |run|
  {
    run == [] || (Safe(b, run[0], Will(b, run, end)) && AllSafe(After(b, run[0]), run[1..], end))
  }

  /** Between switches the outcome of the next one makes no difference. */
  lemma BetweenSwitches(b: Batch, x: bool, y: bool)
    requires b.open.None? && BooksFor(b, x)
    ensures BooksFor(b, y)
  {
  }

  lemma ThenWill(b: Batch, run: seq<Step>, end: bool)
    requires Inv(b) && RunLegal(b, run) && run != []
    ensures var c := After(b, run[0]); BooksFor(c, Will(b, run, end)) <==> BooksFor(c, Will(c, run[1..], end))
  {
    if run[0].Close? {
      assert After(b, run[0]).open.None?;
    }
  }

  lemma RunStep(b: Batch, run: seq<Step>, end: bool)
    requires Inv(b) && RunLegal(b, run) && run != [] && BooksFor(b, Will(b, run, end))
    ensures var c := After(b, run[0]);
      Inv(c) && (BooksFor(c, Will(c, run[1..], end)) <==> Safe(b, run[0], Will(b, run, end)))
  {
    StepKeeps(b, run[0]);
    StepBooks(b, run[0], Will(b, run, end));
    ThenWill(b, run, end);
  }

  /** Whatever a batch and others do: the books are right throughout the run if and only if every step is
      safe for the outcome that its switch has. */
  lemma {:induction false} RunIsSafeIff(b: Batch, run: seq<Step>, end: bool)
    requires Inv(b) && RunLegal(b, run) && BooksFor(b, Will(b, run, end))
    ensures AllBalanced(b, run, end) <==> AllSafe(b, run, end)
    decreases |run|
  {
    if run != [] {
      RunStep(b, run, end);
      if Safe(b, run[0], Will(b, run, end)) {
        RunIsSafeIff(After(b, run[0]), run[1..], end);
      } else {
        Unbalanced(After(b, run[0]), run[1..], end);
      }
    }
  }

  lemma Unbalanced(b: Batch, run: seq<Step>, end: bool)
    requires RunLegal(b, run) && !BooksFor(b, Will(b, run, end))
    ensures !AllBalanced(b, run, end)
  {
  }

  lemma {:induction false} LastBooks(b: Batch, run: seq<Step>, end: bool)
    requires RunLegal(b, run) && AllBalanced(b, run, end)
    ensures BooksFor(AfterAll(b, run), end)
    decreases |run|
  {
    if run != [] {
      LastBooks(After(b, run[0]), run[1..], end);
    }
  }

  // ---------- windows ----------

  /** The books for one outcome are right after every step, */
  ghost predicate RightThroughout(b: Batch, run: seq<Step>, commits: bool)
    requires RunLegal(b, run)
    decreases |run|
  {
    BooksFor(b, commits) && (run == [] || RightThroughout(After(b, run[0]), run[1..], commits))
  }

  /** and every step is safe for it. */
  ghost predicate SafeThroughout(b: Batch, run: seq<Step>, commits: bool)
    requires RunLegal(b, run)
    decreases |run|
  {
    run == [] || (Safe(b, run[0], commits) && SafeThroughout(After(b, run[0]), run[1..], commits))
  }

  /** While a switch is open, the books that its failure will leave are right after every step if and only if
      every step is safe for a failure; and those that its commit will leave are right after every step if
      and only if every step is safe for a commit. Neither asks anything of the other. */
  lemma {:induction false} WindowIsSafeIff(b: Batch, run: seq<Step>, commits: bool)
    requires Inv(b) && RunLegal(b, run) && Window(run) && BooksFor(b, commits)
    ensures RightThroughout(b, run, commits) <==> SafeThroughout(b, run, commits)
    decreases |run|
  {
    if run != [] {
      assert !run[0].Close? && forall i :: 0 <= i < |run[1..]| ==> run[1..][i] == run[i + 1];
      StepKeeps(b, run[0]);
      StepBooks(b, run[0], commits);
      if Safe(b, run[0], commits) {
        WindowIsSafeIff(After(b, run[0]), run[1..], commits);
      }
    }
  }

  /** While the target is the batch's, the opening of a switch that will commit asks for nothing but that all
      planned segments are held, and the counters have room for its copies. */
  lemma OursOpens(b: Batch)
    requires Inv(b) && Accounted(b) && b.open.None? && b.ours && Attempts(b)
    ensures O.HasRoom(|b.led.bits|, Held(b.store), NewKeys(b))
    ensures O.CleanOpen(b.led, Held(b.store), NewKeys(b), OldKeys(b)) <==>
      forall k :: k in OldKeys(b) ==> k in H.Keys(Held(b.store)) || k in NewKeys(b)
  {
    CopiesFit(b);
    CopiesUnheld(b);
    ItemObjects(b);
    assert ItemShape(b, b.items[b.next]);
    forall k ensures k in H.Keys(Held(b.store)) <==> H.Holders(Held(b.store), k) > 0 {
      H.HeldIffKey(Held(b.store), k);
    }
    forall k | k in NewKeys(b) ensures k.ext == b.eid {
    }
  }

  // ---------- exactly when a switch is safe ----------

  /** What a commit needs of books that are right for a failure: what the switch has taken is what only its
      object holds, nobody has shared a segment that it released unshared, and no extent with live bytes,
      its target for one, is free. */
  ghost predicate CommitGuard(b: Batch)
    requires Ranged(b) && b.open.Some?
  {
    O.CleanCommit(b.led, b.open.value, Held(b.store), OldKeys(b))
  }

  lemma SwitchIsWhole(b: Batch, at: nat)
    requires Inv(b) && Accounted(b) && RefsPlaced(b) && Commits(b, at)
    ensures O.Whole(|b.led.bits|, Held(b.store), NewKeys(b), OldKeys(b)) && Ranged(CommitOf(b, at))
  {
    ItemObjects(b);
    CopiesFit(b);
    CopiesUnheld(b);
    forall k | k in Held(b.store)[at] ensures k in H.Keys(Held(b.store)) {
      assert Held(b.store)[at] in Held(b.store);
    }
    CommitRange(b, at);
    forall k | k in OldKeys(b) ensures k in Held(b.store)[at] {
      CommitMember(b, at, k);
    }
  }

  /** Where both the failure and the commit of a switch are possible, and right books await the failure, they
      await the commit if and only if its guard holds. */
  lemma GuardIff(b: Batch, at: nat)
    requires Inv(b) && b.open.Some? && Accounted(b) && RefsPlaced(b) && Commits(b, at)
    ensures Ranged(CommitOf(b, at)) && (Foreseen(b) <==> CommitGuard(b))
  {
    SwitchIsWhole(b, at);
    BooksIff(b);
    O.CommitIff(b.led, b.open.value, Alloc(b), Held(b.store), NewKeys(b), OldKeys(b));
  }

  /** The books are right throughout if every step is safe, and every object reads as it did in `b` if
      nobody deletes it and every step minds it. */
  ghost predicate WellAfter(b: Batch, c: Batch, run: seq<Step>, end: bool)
    requires RunLegal(c, run)
  {
    && (AllSafe(c, run, end) ==> AllBalanced(c, run, end))
    && forall id :: 0 <= id < |b.store| && LeavesAlone(run, id) && AllMind(c, run, id) ==> ReadsSame(b, AfterAll(c, run), id)
  }

  /** However things go on. */
  ghost predicate StaysWell(b: Batch, c: Batch) {
    forall run, end :: RunLegal(c, run) ==> WellAfter(b, c, run, end)
  }

  ghost predicate AllFaithful(b: Batch) {
    forall id :: 0 <= id < |b.store| ==> Faithful(b, id)
  }

  lemma CommitReads(b: Batch, at: nat, run: seq<Step>, id: nat)
    requires Inv(b) && Legal(b, Close(at, false)) && Commits(b, at) && CopiesRight(b) && Ranged(CommitOf(b, at))
    requires Faithful(b, id)
    requires RunLegal(CommitOf(b, at), run) && LeavesAlone(run, id) && AllMind(CommitOf(b, at), run, id)
    ensures ReadsSame(b, AfterAll(CommitOf(b, at), run), id)
  {
    var c := CommitOf(b, at);
    StepReads(b, Close(at, false), id);
    CommitKeeps(b, at);
    MeaningIsPreserved(c, run, id);
    ReadsTwice(b, c, AfterAll(c, run), id);
  }

  lemma CommitGoesOn(b: Batch, at: nat, run: seq<Step>, end: bool)
    requires Inv(b) && b.open.Some? && Commits(b, at) && Ranged(CommitOf(b, at)) && Accounted(CommitOf(b, at))
    requires RunLegal(CommitOf(b, at), run) && AllSafe(CommitOf(b, at), run, end)
    ensures AllBalanced(CommitOf(b, at), run, end)
  {
    var c := CommitOf(b, at);
    CommitKeeps(b, at);
    BetweenSwitches(c, false, Will(c, run, end));
    RunIsSafeIff(c, run, end);
  }

  lemma SwitchGoesWell(b: Batch, at: nat, run: seq<Step>, end: bool)
    requires Inv(b) && AllFaithful(b) && Legal(b, Close(at, false)) && Commits(b, at) && CopiesRight(b)
    requires Ranged(CommitOf(b, at)) && Accounted(CommitOf(b, at)) && RunLegal(CommitOf(b, at), run)
    ensures WellAfter(b, CommitOf(b, at), run, end)
  {
    var c := CommitOf(b, at);
    if AllSafe(c, run, end) {
      CommitGoesOn(b, at, run, end);
    }
    forall id | 0 <= id < |b.store| && LeavesAlone(run, id) && AllMind(c, run, id)
      ensures ReadsSame(b, AfterAll(c, run), id)
    {
      CommitReads(b, at, run, id);
    }
  }

  lemma SwitchGoesWrong(b: Batch, at: nat)
    requires Inv(b) && b.open.Some? && Commits(b, at) && Ranged(CommitOf(b, at))
    requires !Accounted(CommitOf(b, at)) || !CopiesRight(b)
    ensures !StaysWell(b, CommitOf(b, at))
  {
    var c := CommitOf(b, at);
    SwitchReadsIff(b, at);
    assert RunLegal(c, []) && AllSafe(c, [], false) && AfterAll(c, []) == c;
    assert LeavesAlone([], at) && AllMind(c, [], at);
    assert !WellAfter(b, c, [], false);
  }

  /** A commit is right for ever and for everybody if and only if its guard holds and the copies have the
      bytes of what they replace. */
  lemma SwitchIsSafeIff(b: Batch, at: nat)
    requires Inv(b) && Accounted(b) && RefsPlaced(b) && AllFaithful(b)
    requires Legal(b, Close(at, false)) && Commits(b, at)
    ensures StaysWell(b, CommitOf(b, at)) <==> CommitGuard(b) && CopiesRight(b)
  {
    GuardIff(b, at);
    CommitBooks(b, at);
    if CommitGuard(b) && CopiesRight(b) {
      forall run, end | RunLegal(CommitOf(b, at), run) ensures WellAfter(b, CommitOf(b, at), run, end) {
        SwitchGoesWell(b, at, run, end);
      }
    } else {
      SwitchGoesWrong(b, at);
    }
  }

  // ---------- the end of a batch ----------

  /** A batch before its first step: the target has just been allocated to it. */
  ghost predicate Fresh(b: Batch) {
    && Accounted(b) && b.phase == Copies && b.pending && b.commits == 0 && b.ours && b.open.None?
    && b.cur == 0 && !b.busy && b.part == 0 && b.wm == 0 && b.made == [] && b.next == 0
    && (forall j :: 0 <= j < |b.items| ==>
          b.items[j].new_ == [] && !b.items[j].full && L.Distinct(KeysOf(b.items[j].old_)))
    && (forall j, i :: 0 <= j < |b.items| && 0 <= i < |b.items[j].old_| ==>
          b.items[j].old_[i].len > 0 && b.items[j].old_[i].ext < |b.disk|)
    && b.led.bits[b.eid] && b.led.pins[b.eid] == 0 && NoneIn(b.store, b.eid)
  }

  lemma FreshIsOk(b: Batch)
    requires Fresh(b)
    ensures Inv(b) && AllFaithful(b)
  {
    forall j | 0 <= j < |b.items| ensures ItemShape(b, b.items[j]) {
    }
  }

  /** A target that is not an extent of the plan never clashes with it. */
  lemma TargetOutsidePlan(b: Batch)
    requires Inv(b)
    requires forall j, i :: 0 <= j < |b.items| && 0 <= i < |b.items[j].old_| ==> b.items[j].old_[i].ext != b.eid
    ensures NoClash(b)
  {
  }

  ghost predicate AllAllocated(b: Batch) {
    forall id :: 0 <= id < |b.store| ==> OnAllocated(b, id)
  }

  /** Where the books are right outside a switch, everything lies in allocated extents. */
  lemma BooksMeanAllocated(b: Batch)
    requires Accounted(b) && b.open.None?
    ensures AllAllocated(b) && (!b.led.bits[b.eid] ==> NoneIn(b.store, b.eid))
  {
    if !b.led.bits[b.eid] {
      FreeMeansNone(b, b.eid);
    }
    forall id | 0 <= id < |b.store| ensures OnAllocated(b, id) {
      RefsOfObject(b.store, id);
      forall s | s in Listed(b.store[id]) ensures s.ext < |b.led.bits| && b.led.bits[s.ext] {
        RefAllocated(b, s);
      }
    }
  }

  /** How a batch ends, whatever others did. A target that has been its own throughout was switched to; the
      copies are aligned, disjoint and inside the extent, carry the checksums of their bytes, and are all
      that anyone refers to there. If every step was safe for the outcome of its switch, the books are
      right, a target that is free is referred to by nobody, and every object lies in allocated extents.
      And whoever was not deleted, and was minded by every step, reads the same. */
  lemma BatchEnds(b: Batch, run: seq<Step>)
    requires Fresh(b) && RunLegal(b, run) && AfterAll(b, run).phase == Done
    ensures var r := AfterAll(b, run);
      && r.open.None? && r.eid < |r.led.bits| && Chain(r.made, r.eid, r.wm) && r.wm <= r.cap
      && (r.ours ==> r.commits > 0 && r.led.bits[r.eid] && MadeOk(r) && RefsPlaced(r))
      && (AllSafe(b, run, false) ==> Accounted(r) && AllAllocated(r) && (!r.led.bits[r.eid] ==> NoneIn(r.store, r.eid)))
      && forall id :: 0 <= id < |b.store| && LeavesAlone(run, id) && AllMind(b, run, id) ==> ReadsSame(b, r, id)
  {
    FreshIsOk(b);
    RunKeeps(b, run);
    var r := AfterAll(b, run);
    if AllSafe(b, run, false) {
      BetweenSwitches(b, false, Will(b, run, false));
      RunIsSafeIff(b, run, false);
      LastBooks(b, run, false);
      BooksMeanAllocated(r);
    }
    forall id | 0 <= id < |b.store| && LeavesAlone(run, id) && AllMind(b, run, id) ensures ReadsSame(b, r, id) {
      MeaningIsPreserved(b, run, id);
    }
  }
}
