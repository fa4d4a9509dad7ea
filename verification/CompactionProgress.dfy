/** A batch of compaction comes to its end: its own steps use up what there is to copy and to switch, and
    nothing that others do in between gives it more to do. */
module CompactionProgress {
  import opened Compactions
  import opened CompactionRuns
  import opened CompactionSwitches

  /** How far a batch is. */
  datatype Standing = Standing(items: seq<Item>, cur: nat, busy: bool, part: nat, phase: Phase, next: nat, open: bool)

  function StandingOf(b: Batch): Standing {
    Standing(b.items, b.cur, b.busy, b.part, b.phase, b.next, b.open.Some?)
  }

  predicate Sound(t: Standing) {
    && t.next <= |t.items| && (t.open ==> t.next < |t.items|)
    && (t.busy ==> t.cur < |t.items| && |t.items[t.cur].new_| < |t.items[t.cur].old_| &&
                   t.part < t.items[t.cur].old_[|t.items[t.cur].new_|].len)
  }

  function Lengths(segs: seq<Segment>): nat {
    if segs == [] then 0 else segs[0].len + Lengths(segs[1..])
  }

  lemma LengthsFrom(segs: seq<Segment>, k: nat)
    requires k < |segs|
    ensures Lengths(segs[k..]) == segs[k].len + Lengths(segs[k + 1..])
  {
    assert segs[k..][1..] == segs[k + 1..];
  }

  /** The steps that items from the `from`th on can take: to begin, to pass on, and one for every byte. */
  function Untouched(items: seq<Item>, from: nat): nat
    decreases |items| - from
  {
    if from >= |items| then 0 else 2 + Lengths(items[from].old_) + Untouched(items, from + 1)
  }

  lemma {:induction false} UntouchedSame(items: seq<Item>, later: seq<Item>, from: nat)
    requires |later| == |items| && forall j :: from <= j < |items| ==> later[j].old_ == items[j].old_
    ensures Untouched(later, from) == Untouched(items, from)
    decreases |items| - from
  {
    if from < |items| {
      UntouchedSame(items, later, from + 1);
    }
  }

  /** What is left of an item that is being copied. */
  function Uncopied(it: Item, part: nat): nat
    requires |it.new_| < |it.old_| && part < it.old_[|it.new_|].len
  {
    LengthsFrom(it.old_, |it.new_|);
    1 + Lengths(it.old_[|it.new_|..]) - part
  }

  /** A bound on the steps that the batch still has to take. */
  function Remaining(t: Standing): nat
    requires Sound(t)
  {
    match t.phase
    case Copies =>
      2 * |t.items| + 2 +
      (if t.busy then Uncopied(t.items[t.cur], t.part) + Untouched(t.items, t.cur + 1) else Untouched(t.items, t.cur))
    case Switches => 2 * (|t.items| - t.next) + 1 - (if t.open then 1 else 0)
    case Done => 0
  }

  lemma StandsSound(b: Batch)
    requires Inv(b)
    ensures Sound(StandingOf(b))
  {
  }

  // ---------- steps of the batch ----------

  /** A chunk moves on within its segment, to the next one, or to the next item. */
  ghost predicate Advances(t: Standing, u: Standing) {
    && Sound(t) && Sound(u) && t.phase == u.phase == Copies && t.busy && |u.items| == |t.items|
    && (forall j :: 0 <= j < |t.items| ==> u.items[j].old_ == t.items[j].old_)
    && (|| (u.busy && u.cur == t.cur && u.items[u.cur].new_ == t.items[u.cur].new_ && u.part > t.part)
        || (u.busy && u.cur == t.cur && |u.items[u.cur].new_| == |t.items[u.cur].new_| + 1 && u.part == 0)
        || (!u.busy && u.cur == t.cur + 1))
  }

  lemma CopyingLess(t: Standing, u: Standing)
    requires Advances(t, u)
    ensures Remaining(u) < Remaining(t)
  {
    var it := t.items[t.cur];
    LengthsFrom(it.old_, |it.new_|);
    UntouchedSame(t.items, u.items, t.cur + 1);
  }

  lemma ChunkCopies(b: Batch)
    requires Inv(b) && Legal(b, Chunk) && Sound(StandingOf(AfterChunk(b)))
    ensures Advances(StandingOf(b), StandingOf(AfterChunk(b)))
  {
  }

  /** Every other step of the batch begins, ends or passes over something. */
  ghost predicate Turns(t: Standing, u: Standing) {
    && Sound(t) && Sound(u) && u.items == t.items
    && (|| (t.phase == u.phase == Copies && !t.busy && u.busy && u.cur == t.cur && u.part == 0 && t.items[t.cur].new_ == [])
        || (t.phase == u.phase == Copies && !u.busy && u.cur == t.cur + 1 && t.cur < |t.items|)
        || (t.phase == Copies && u.phase == Switches && u.next == 0)
        || (t.phase == u.phase == Switches && u.next == t.next && !t.open && u.open)
        || (t.phase == u.phase == Switches && u.next == t.next + 1 && !u.open)
        || (t.phase == Switches && u.phase == Done))
  }

  lemma TurnsLess(t: Standing, u: Standing)
    requires Turns(t, u)
    ensures Remaining(u) < Remaining(t)
  {
    if t.phase == u.phase == Copies && u.busy {
      assert t.items[t.cur].old_[0..] == t.items[t.cur].old_;
    }
  }

  lemma StepTurns(b: Batch, p: Step)
    requires Inv(b) && Legal(b, p) && Own(p) && !p.Chunk? && Sound(StandingOf(After(b, p)))
    ensures Turns(StandingOf(b), StandingOf(After(b, p)))
  {
  }

  /** Every step of the batch itself leaves it less to do. */
  lemma OwnProgress(b: Batch, p: Step)
    requires Inv(b) && Legal(b, p) && Own(p) && Inv(After(b, p))
    ensures Sound(StandingOf(b)) && Sound(StandingOf(After(b, p)))
    ensures Remaining(StandingOf(After(b, p))) < Remaining(StandingOf(b))
  {
    var t, u := StandingOf(b), StandingOf(After(b, p));
    StandsSound(b);
    StandsSound(After(b, p));
    if p.Chunk? {
      ChunkCopies(b);
      CopyingLess(t, u);
    } else {
      StepTurns(b, p);
      TurnsLess(t, u);
    }
  }

  /** Steps of others leave it where it is. */
  lemma OthersLeave(b: Batch, p: Step)
    requires Inv(b) && Legal(b, p) && !Own(p)
    ensures StandingOf(After(b, p)) == StandingOf(b)
  {
  }

  function OwnSteps(run: seq<Step>): nat {
    if run == [] then 0 else (if Own(run[0]) then 1 else 0) + OwnSteps(run[1..])
  }

  /** No run has more steps of the batch than there was left to do at its start, whatever others do meanwhile. */
  lemma {:induction false} BatchTerminates(b: Batch, run: seq<Step>)
    requires Inv(b) && RunLegal(b, run)
    ensures Sound(StandingOf(b)) && OwnSteps(run) <= Remaining(StandingOf(b))
    decreases |run|
  {
    StandsSound(b);
    if run != [] {
      StepKeeps(b, run[0]);
      if Own(run[0]) {
        OwnProgress(b, run[0]);
      } else {
        OthersLeave(b, run[0]);
      }
      BatchTerminates(After(b, run[0]), run[1..]);
    }
  }

  // ---------- which items are switched ----------

  /** All planned segments of the item have been copied. */
  predicate IsCopied(it: Item) {
    it.new_ != [] && |it.new_| == |it.old_|
  }

  /** Exactly the items that are copied are marked so. */
  predicate Marked(items: seq<Item>) {
    forall j :: 0 <= j < |items| ==> items[j].full == IsCopied(items[j])
  }

  lemma StepMarks(b: Batch, p: Step)
    requires Inv(b) && Legal(b, p) && Marked(b.items)
    ensures Marked(After(b, p).items)
  {
    if p.Chunk? {
      ChunkMarks(b);
    } else if Own(p) {
      StepTurnsItems(b, p);
    } else {
      OthersLeave(b, p);
    }
  }

  lemma ChunkMarks(b: Batch)
    requires Inv(b) && ChunkRoom(b) && Marked(b.items)
    ensures Marked(AfterChunk(b).items)
  {
  }

  lemma StepTurnsItems(b: Batch, p: Step)
    requires Inv(b) && Legal(b, p) && Own(p) && !p.Chunk?
    ensures After(b, p).items == b.items
  {
  }

  /** Over any run, an item whose turn has come is switched if and only if all its segments have been copied. */
  lemma {:induction false} SwitchedIffCopied(b: Batch, run: seq<Step>)
    requires Inv(b) && RunLegal(b, run) && Marked(b.items)
    ensures var c := AfterAll(b, run);
      && Marked(c.items)
      && (Attempts(c) <==> c.next < |c.items| && IsCopied(c.items[c.next]))
    decreases |run|
  {
    if run != [] {
      StepKeeps(b, run[0]);
      StepMarks(b, run[0]);
      SwitchedIffCopied(After(b, run[0]), run[1..]);
    }
  }
}
