/** The bitmap under concurrency: threads load a word and later try to compare-exchange it, in any
    interleaving, and a compare-exchange may fail even when the word has not changed. */
module BitmapRaces {
  import opened Words
  import opened Bitmaps

  /** Handing out any bit or one of a window, and setting or clearing a given one. */
  datatype Goal = Take | TakeIn(start: nat, end: nat) | Set(id: nat) | Clear(id: nat)

  /** What a thread holds between its atomic steps: the word it last loaded. */
  datatype Thread = Idle | Trying(goal: Goal, wi: nat, cur: Word)

  /** Completed changes, in the order in which they took effect. */
  datatype Event = Taken(id: nat) | Cleared(id: nat)

  datatype Machine = Machine(n: nat, words: seq<Word>, threads: map<nat, Thread>, trace: seq<Event>)

  datatype Step =
    | LoadWord(t: nat, goal: Goal, wi: nat)
    | Exchange(t: nat, succeeds: bool)

  function BitAt(words: seq<Word>, id: nat): bool
    requires id < 64 * |words|
  {
    words[id / 64][id % 64]
  }

  ghost predicate Ok(m: Machine) {
    && m.n <= 64 * |m.words|
    && forall t :: t in m.threads && m.threads[t].Trying? ==> GoalOk(m, m.threads[t].goal, m.threads[t].wi)
  }

  predicate GoalOk(m: Machine, goal: Goal, wi: nat) {
    && wi < |m.words|
    && match goal
       case Take => true
       case TakeIn(start, end) => start < end <= m.n && start / 64 <= wi <= (end - 1) / 64
       case Set(id) => id < m.n && id / 64 == wi
       case Clear(id) => id < m.n && id / 64 == wi
  }

  /** The id that a thread is about to change, if its loaded word lets it change anything. */
  function Target(m: Machine, th: Thread): Option<nat>
    requires th.Trying? && GoalOk(m, th.goal, th.wi)
  {
    match th.goal
    case Take =>
      var bit := TrailingZeros(Not(th.cur));
      if Not(th.cur) == Zero() || th.wi * 64 + bit >= m.n then None else Some(th.wi * 64 + bit)
    case TakeIn(start, end) =>
      var free := FreeBitsInWindow(th.cur, th.wi, start, end);
      if free == Zero() then None else Some(th.wi * 64 + TrailingZeros(free))
    case Set(id) => if And(th.cur, OneShl(id % 64)) != Zero() then None else Some(id)
    case Clear(id) => if And(th.cur, OneShl(id % 64)) == Zero() then None else Some(id)
  }

  ghost predicate StepLegal(m: Machine, p: Step) {
    match p
    case LoadWord(t, goal, wi) =>
      GoalOk(m, goal, wi) && (t in m.threads ==> m.threads[t].Idle? || goal.Take? || goal.TakeIn?)
    case Exchange(t, succeeds) =>
      && t in m.threads && m.threads[t].Trying? && GoalOk(m, m.threads[t].goal, m.threads[t].wi)
      && (succeeds ==> Target(m, m.threads[t]).Some? && m.words[m.threads[t].wi] == m.threads[t].cur)
  }

  ghost function After(m: Machine, p: Step): Machine
    requires StepLegal(m, p)
  {
    match p
    case LoadWord(t, goal, wi) => m.(threads := m.threads[t := Trying(goal, wi, m.words[wi])])
    case Exchange(t, succeeds) =>
      var th := m.threads[t];
      if !succeeds then m.(threads := m.threads[t :=
        if Target(m, th).None? then Idle else th.(cur := m.words[th.wi])])
      else
        var id := Target(m, th).value;
        var mask := OneShl(id % 64);
        m.(words := m.words[th.wi := if th.goal.Clear? then And(th.cur, Not(mask)) else Or(th.cur, mask)],
           threads := m.threads[t := Idle],
           trace := m.trace + [if th.goal.Clear? then Cleared(id) else Taken(id)])
  }

  /** What the trace says about one bit: its value after all changes, starting from `init`. */
  function Replayed(init: bool, trace: seq<Event>, id: nat): bool {
    if trace == [] then init else
      var last := trace[|trace| - 1];
      if last.id == id then last.Taken? else Replayed(init, trace[..|trace| - 1], id)
  }

  /** Every change recorded for `id` really was a change. */
  ghost predicate RealChanges(init: bool, trace: seq<Event>, id: nat) {
    forall j :: 0 <= j < |trace| && trace[j].id == id ==>
      Replayed(init, trace[..j], id) == trace[j].Cleared?
  }

  ghost predicate Explained(init: seq<bool>, m: Machine, id: nat) {
    && id < |init| == m.n <= 64 * |m.words|
    && BitAt(m.words, id) == Replayed(init[id], m.trace, id)
    && RealChanges(init[id], m.trace, id)
  }

  lemma TargetBit(m: Machine, th: Thread)
    requires th.Trying? && GoalOk(m, th.goal, th.wi) && m.n <= 64 * |m.words| && Target(m, th).Some?
    ensures var id := Target(m, th).value;
      id < m.n && id / 64 == th.wi && th.cur[id % 64] == th.goal.Clear?
  {
    if th.goal.Take? {
      FreeBits(th.cur);
    } else if th.goal.TakeIn? {
      ZeroHasNoBit(FreeBitsInWindow(th.cur, th.wi, th.goal.start, th.goal.end));
    } else {
      MaskTests(th.cur, th.goal.id % 64);
    }
  }

  /** The loaded word lets a thread change this bit. */
  predicate Changes(m: Machine, th: Thread, id: nat)
    requires th.Trying?
  {
    && id / 64 == th.wi && id < m.n && th.cur[id % 64] == th.goal.Clear?
    && match th.goal
       case Take => true
       case TakeIn(start, end) => start <= id < end
       case Set(goal) => id == goal
       case Clear(goal) => id == goal
  }

  lemma NothingBelow(m: Machine, th: Thread, id: nat)
    requires th.Trying? && GoalOk(m, th.goal, th.wi) && Changes(m, th, id)
    ensures Target(m, th).Some? && Target(m, th).value <= id
  {
    var b := id % 64;
    assert id == 64 * th.wi + b;
    if th.goal.Take? {
      FreeBits(th.cur);
      assert Not(th.cur)[b];
    } else if th.goal.TakeIn? {
      var free := FreeBitsInWindow(th.cur, th.wi, th.goal.start, th.goal.end);
      assert free[b];
      ZeroHasNoBit(free);
    } else {
      MaskTests(th.cur, b);
    }
  }

  /** A thread gives up exactly when its word has no bit for it, and takes the lowest one otherwise. */
  lemma TargetIsLowest(m: Machine, th: Thread)
    requires th.Trying? && GoalOk(m, th.goal, th.wi) && m.n <= 64 * |m.words|
    ensures Target(m, th).Some? <==> exists id :: Changes(m, th, id)
    ensures Target(m, th).Some? ==>
      Changes(m, th, Target(m, th).value) && forall id :: Changes(m, th, id) ==> Target(m, th).value <= id
  {
    forall id | Changes(m, th, id) ensures Target(m, th).Some? && Target(m, th).value <= id {
      NothingBelow(m, th, id);
    }
    if Target(m, th).Some? {
      TargetBit(m, th);
      TargetInGoal(m, th);
      assert Changes(m, th, Target(m, th).value);
    }
  }

  lemma TargetInGoal(m: Machine, th: Thread)
    requires th.Trying? && GoalOk(m, th.goal, th.wi) && Target(m, th).Some?
    ensures th.goal.TakeIn? ==> th.goal.start <= Target(m, th).value < th.goal.end
    ensures th.goal.Set? || th.goal.Clear? ==> Target(m, th).value == th.goal.id
  {
    if th.goal.TakeIn? {
      ZeroHasNoBit(FreeBitsInWindow(th.cur, th.wi, th.goal.start, th.goal.end));
    }
  }

  lemma AppendChange(init: bool, trace: seq<Event>, v: Event, id: nat)
    requires RealChanges(init, trace, id) && (v.id == id ==> Replayed(init, trace, id) == v.Cleared?)
    ensures RealChanges(init, trace + [v], id)
    ensures Replayed(init, trace + [v], id) == if v.id == id then v.Taken? else Replayed(init, trace, id)
  {
    var r := trace + [v];
    assert r[..|r| - 1] == trace;
    forall j | 0 <= j < |r| && r[j].id == id ensures Replayed(init, r[..j], id) == r[j].Cleared? {
      assert r[..j] == if j < |trace| then trace[..j] else trace;
    }
  }

  lemma ExchangedBit(w: Word, i: nat, j: nat)
    requires i < 64 && j < 64
    ensures Or(w, OneShl(i))[j] == (w[j] || i == j)
    ensures And(w, Not(OneShl(i)))[j] == (w[j] && i != j)
  {
  }

  lemma ExchangeExplained(init: seq<bool>, m: Machine, p: Step, id: nat)
    requires Ok(m) && p.Exchange? && p.succeeds && StepLegal(m, p) && Explained(init, m, id)
    ensures Explained(init, After(m, p), id)
  {
    var th := m.threads[p.t];
    TargetBit(m, th);
    var x := Target(m, th).value;
    ExchangedBit(th.cur, x % 64, id % 64);
    AppendChange(init[id], m.trace, if th.goal.Clear? then Cleared(x) else Taken(x), id);
  }

  lemma StepExplained(init: seq<bool>, m: Machine, p: Step, id: nat)
    requires Ok(m) && StepLegal(m, p) && Explained(init, m, id)
    ensures Ok(After(m, p)) && Explained(init, After(m, p), id)
  {
    if p.Exchange? && p.succeeds {
      ExchangeExplained(init, m, p, id);
    }
  }

  ghost predicate RunLegal(m: Machine, run: seq<Step>)
    decreases |run|
  {
    run == [] || (StepLegal(m, run[0]) && RunLegal(After(m, run[0]), run[1..]))
  }

  ghost function AfterAll(m: Machine, run: seq<Step>): Machine
    requires RunLegal(m, run)
    decreases |run|
  {
    if run == [] then m else AfterAll(After(m, run[0]), run[1..])
  }

  lemma {:induction false} RunExplained(init: seq<bool>, m: Machine, run: seq<Step>, id: nat)
    requires Ok(m) && RunLegal(m, run) && Explained(init, m, id)
    ensures Explained(init, AfterAll(m, run), id)
    decreases |run|
  {
    if run != [] {
      StepExplained(init, m, run[0], id);
      RunExplained(init, After(m, run[0]), run[1..], id);
    }
  }

  /** Once taken, a bit stays taken until somebody clears it. */
  lemma {:induction false} StaysTaken(init: bool, trace: seq<Event>, i: nat, j: nat, id: nat)
    requires i < j <= |trace| && trace[i] == Taken(id)
    requires forall k :: i < k < j ==> trace[k] != Cleared(id)
    ensures Replayed(init, trace[..j], id)
    decreases j
  {
    var last := trace[..j][j - 1];
    if last.id != id {
      assert trace[..j][..j - 1] == trace[..j - 1];
      StaysTaken(init, trace, i, j - 1, id);
    }
  }

  /** Under any interleaving of loads and compare-exchanges, from any starting bitmap: an id that has
      been handed out is not handed out again before it has been cleared. */
  lemma NeverHandedOutTwice(init: seq<bool>, m: Machine, run: seq<Step>, id: nat, i: nat, j: nat)
    requires Ok(m) && RunLegal(m, run) && m.trace == [] && id < |init| == m.n
    requires forall e :: 0 <= e < m.n ==> BitAt(m.words, e) == init[e]
    requires i < j < |AfterAll(m, run).trace|
    requires AfterAll(m, run).trace[i] == Taken(id) && AfterAll(m, run).trace[j] == Taken(id)
    ensures exists k :: i < k < j && AfterAll(m, run).trace[k] == Cleared(id)
  {
    RunExplained(init, m, run, id);
    var trace := AfterAll(m, run).trace;
    if forall k :: i < k < j ==> trace[k] != Cleared(id) {
      StaysTaken(init[id], trace, i, j, id);
      assert false;
    }
  }
}
