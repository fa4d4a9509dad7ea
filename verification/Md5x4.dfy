/** The four-lane MD5 hasher: four independent messages, hashed side by side. */
module Md5x4 {
  import opened Md5Reference

  type Words = seq<nat>

  /** A lane's state `[a, b, c, d]`. */
  type LaneState = s: seq<nat> | |s| == 4 witness [0, 0, 0, 0]

  function RegsOf(s: LaneState): Regs {
    Regs(s[0], s[1], s[2], s[3])
  }

  function StateOf(r: Regs): (s: LaneState)
    ensures RegsOf(s) == r
  {
    [r.a, r.b, r.c, r.d]
  }

  // ---------- constants ----------

  function GIndex(i: nat): nat {
    if i <= 15 then i
    else if i <= 31 then (5 * i + 1) % 16
    else if i <= 47 then (3 * i + 5) % 16
    else (7 * i) % 16
  }

  function ShiftRow(round: nat): (t: seq<nat>)
    ensures |t| == 16
  {
    match round
    case 0 => [7, 12, 17, 22, 7, 12, 17, 22, 7, 12, 17, 22, 7, 12, 17, 22]
    case 1 => [5, 9, 14, 20, 5, 9, 14, 20, 5, 9, 14, 20, 5, 9, 14, 20]
    case 2 => [4, 11, 16, 23, 4, 11, 16, 23, 4, 11, 16, 23, 4, 11, 16, 23]
    case _ => [6, 10, 15, 21, 6, 10, 15, 21, 6, 10, 15, 21, 6, 10, 15, 21]
  }

  function Shifts(): (t: seq<nat>)
    ensures |t| == 64
  {
    seq(64, i requires 0 <= i < 64 => ShiftRow(i / 16)[i % 16])
  }

  /** The constants that the hasher computes with. The message words are not a table but computed. */
  function Constants(): Tables {
    Tables(Sines(), Shifts(), seq(64, i requires 0 <= i < 64 => GIndex(i)))
  }

  ghost predicate Computed(t: Tables) {
    TablesOk(t) && forall i :: 0 <= i < 64 ==> t.words[i] == GIndex(i)
  }

  /** What the index is within a round. */
  function InRound(round: nat, j: nat): nat {
    match round
    case 0 => j
    case 1 => (5 * j + 1) % 16
    case 2 => (3 * j + 5) % 16
    case _ => (7 * j) % 16
  }

  lemma GIndexInRound(round: nat, j: nat)
    requires round < 4 && j < 16
    ensures GIndex(16 * round + j) == InRound(round, j)
  {
    if round == 1 {
      Mod16(5, 5 * j + 1);
    } else if round == 2 {
      Mod16(6, 3 * j + 5);
    } else if round == 3 {
      Mod16(21, 7 * j);
    }
  }

  lemma Mod16(q: nat, x: nat)
    ensures (16 * q + x) % 16 == x % 16
  {
  }

  lemma ListedInRound(round: nat, j: nat)
    requires round < 4 && j < 16
    ensures RoundWords(round)[j] == InRound(round, j)
  {
    if j < 4 {
      assert j == 0 || j == 1 || j == 2 || j == 3;
    } else if j < 8 {
      assert j == 4 || j == 5 || j == 6 || j == 7;
    } else if j < 12 {
      assert j == 8 || j == 9 || j == 10 || j == 11;
    } else {
      assert j == 12 || j == 13 || j == 14 || j == 15;
    }
  }

  /** The computed word index is the one that RFC 1321 lists. */
  lemma GIndexIsListed(round: nat, j: nat)
    requires round < 4 && j < 16
    ensures GIndex(16 * round + j) == RoundWords(round)[j]
  {
    GIndexInRound(round, j);
    ListedInRound(round, j);
  }

  lemma RowIsRotation(round: nat, j: nat)
    requires round < 4 && j < 16
    ensures ShiftRow(round)[j] == Rotation(16 * round + j)
  {
    var i := 16 * round + j;
    assert i % 4 == j % 4;
    if j < 8 {
      assert j == 0 || j == 1 || j == 2 || j == 3 || j == 4 || j == 5 || j == 6 || j == 7;
    } else {
      assert j == 8 || j == 9 || j == 10 || j == 11 || j == 12 || j == 13 || j == 14 || j == 15;
    }
  }

  lemma ShiftsAreRotations(i: nat)
    requires i < 64
    ensures Shifts()[i] == Rotation(i)
  {
    RowIsRotation(i / 16, i % 16);
    assert i == 16 * (i / 16) + i % 16;
  }

  lemma WordsAreListed(i: nat)
    requires i < 64
    ensures GIndex(i) == RoundWords(i / 16)[i % 16] && GIndex(i) < 16
  {
    GIndexIsListed(i / 16, i % 16);
  }

  /** The constants are those of RFC 1321. */
  lemma ConstantsAreRfc1321()
    ensures Constants() == Rfc1321() && Computed(Constants())
  {
    var c, r := Constants(), Rfc1321();
    forall i | 0 <= i < 64 ensures c.rotations[i] == r.rotations[i] {
      ShiftsAreRotations(i);
    }
    forall i | 0 <= i < 64 ensures c.words[i] == r.words[i] && c.words[i] == GIndex(i) < 16 {
      WordsAreListed(i);
    }
    assert c.rotations == r.rotations && c.words == r.words;
  }

  // ---------- one step ----------

  function Choose(round: nat, b: nat, c: nat, d: nat): nat {
    match round
    case 0 => Or(And(b, c), And(Not(b), d))
    case 1 => Or(And(b, d), And(Not(d), c))
    case 2 => Xor(Xor(b, c), d)
    case _ => Xor(c, Or(b, Not(d)))
  }

  lemma AuxiliaryByRound(i: nat, b: nat, c: nat, d: nat)
    ensures Choose(i / 16, b, c, d) == Auxiliary(i, b, c, d)
  {
    AndCommutes(Not(d), c);
  }

  /** The body of a step: the new value of the word that is updated. */
  method Mix(t: Tables, w: Words, i: nat, a: nat, b: nat, c: nat, d: nat) returns (na: nat)
    requires Computed(t) && |w| == 16 && i < 64
    ensures na == Mixed(t, w, i, a, b, c, d)
  {
    var f := Choose(i / 16, b, c, d);
    AuxiliaryByRound(i, b, c, d);
    AddReorders(a, f, t.sines[i], w[GIndex(i)]);
    na := Add(b, RotateLeft(Add(Add(Add(a, f), t.sines[i]), w[GIndex(i)]), t.rotations[i]));
  }

  // ---------- the indexed transform ----------

  /** The register that step `i` updates is at index CYC[i % 4]; its neighbours follow it cyclically. */
  function Cyc(i: nat): nat {
    [0, 3, 2, 1][i % 4]
  }

  /** Indexing with `Cyc` picks the registers that RFC 1321 names. */
  lemma IndexedIsNamed(t: Tables, w: Words, i: nat, st: LaneState, na: nat)
    requires TablesOk(t) && |w| == 16 && i < 64
    requires var x := Cyc(i); na == Mixed(t, w, i, st[x], st[(x + 1) % 4], st[(x + 2) % 4], st[(x + 3) % 4])
    ensures RegsOf(st[Cyc(i) := na]) == Operation(t, w, i, RegsOf(st))
  {
    if i % 4 == 0 {
      assert Cyc(i) == 0;
    } else if i % 4 == 1 {
      assert Cyc(i) == 3;
    } else if i % 4 == 2 {
      assert Cyc(i) == 2;
    } else {
      assert Cyc(i) == 1;
    }
  }

  method ScalarStep(t: Tables, w: Words, i: nat, st: LaneState) returns (r: LaneState)
    requires Computed(t) && |w| == 16 && i < 64
    ensures RegsOf(r) == Operation(t, w, i, RegsOf(st))
  {
    var widx := Cyc(i);
    var na := Mix(t, w, i, st[widx], st[(widx + 1) % 4], st[(widx + 2) % 4], st[(widx + 3) % 4]);
    IndexedIsNamed(t, w, i, st, na);
    r := st[widx := na];
  }

  /** The 16 message words of a block. */
  method LoadWords(b: Block) returns (w: Words)
    ensures w == WordsOf(b)
  {
    w := [];
    for j := 0 to 16
      invariant |w| == j && forall k :: 0 <= k < j ==> w[k] == WordsOf(b)[k]
    {
      var p := j * 4;
      var word := LeWord([b[p], b[p + 1], b[p + 2], b[p + 3]]);
      assert [b[p], b[p + 1], b[p + 2], b[p + 3]] == b[4 * j..4 * j + 4];
      w := w + [word];
    }
  }

  /** One round over four lanes; a lane without a block is left alone. */
  method ScalarTransform(t: Tables, states: seq<LaneState>, blocks: seq<Block>, active: seq<bool>) returns (r: seq<LaneState>)
    requires Computed(t) && |states| == |blocks| == |active| == 4
    ensures |r| == 4
    ensures forall l :: 0 <= l < 4 ==>
      RegsOf(r[l]) == if active[l] then Transform(t, RegsOf(states[l]), blocks[l]) else RegsOf(states[l])
  {
    var w: seq<Words> := [];
    for l := 0 to 4
      invariant |w| == l && forall k :: 0 <= k < l ==> w[k] == WordsOf(blocks[k])
    {
      var words := LoadWords(blocks[l]);
      w := w + [words];
    }
    r := states;
    for i := 0 to |t.words|
      invariant |r| == 4
      invariant forall l :: 0 <= l < 4 ==>
        RegsOf(r[l]) == if active[l] then Operations(t, w[l], i, RegsOf(states[l])) else RegsOf(states[l])
    {
      r := ScalarStepAll(t, w, i, r, active);
    }
    r := AddBack(r, states, active);
  }

  method ScalarStepAll(t: Tables, w: seq<Words>, i: nat, states: seq<LaneState>, active: seq<bool>) returns (r: seq<LaneState>)
    requires Computed(t) && |states| == |w| == |active| == 4 && i < 64 && forall l :: 0 <= l < 4 ==> |w[l]| == 16
    ensures |r| == 4
    ensures forall l :: 0 <= l < 4 ==>
      RegsOf(r[l]) == if active[l] then Operation(t, w[l], i, RegsOf(states[l])) else RegsOf(states[l])
  {
    r := states;
    for l := 0 to 4
      invariant |r| == 4
      invariant forall k :: l <= k < 4 ==> r[k] == states[k]
      invariant forall k :: 0 <= k < l ==>
        RegsOf(r[k]) == if active[k] then Operation(t, w[k], i, RegsOf(states[k])) else RegsOf(states[k])
    {
      if active[l] {
        var st := ScalarStep(t, w[l], i, r[l]);
        r := r[l := st];
      }
    }
  }

  method AddBack(states: seq<LaneState>, orig: seq<LaneState>, active: seq<bool>) returns (r: seq<LaneState>)
    requires |states| == |orig| == |active| == 4
    ensures |r| == 4
    ensures forall l :: 0 <= l < 4 ==>
      RegsOf(r[l]) == if active[l] then Plus(RegsOf(states[l]), RegsOf(orig[l])) else RegsOf(states[l])
  {
    r := states;
    for l := 0 to 4
      invariant |r| == 4
      invariant forall k :: l <= k < 4 ==> r[k] == states[k]
      invariant forall k :: 0 <= k < l ==>
        RegsOf(r[k]) == if active[k] then Plus(RegsOf(states[k]), RegsOf(orig[k])) else RegsOf(states[k])
    {
      if active[l] {
        var s, o := r[l], orig[l];
        r := r[l := [Add(s[0], o[0]), Add(s[1], o[1]), Add(s[2], o[2]), Add(s[3], o[3])]];
      }
    }
  }

  // ---------- the renaming transform ----------

  /** Four local variables after `i` steps of renaming: each step moves every value one name on. */
  function Renamed(i: nat, r: Regs): Regs {
    match i % 4
    case 0 => r
    case 1 => Regs(r.d, r.a, r.b, r.c)
    case 2 => Regs(r.c, r.d, r.a, r.b)
    case _ => Regs(r.b, r.c, r.d, r.a)
  }

  /** Renaming keeps track of where each register is. */
  lemma RenamedStep(t: Tables, w: Words, i: nat, r: Regs, v: Regs, na: nat)
    requires TablesOk(t) && |w| == 16 && i < 64 && v == Renamed(i, r)
    requires na == Mixed(t, w, i, v.a, v.b, v.c, v.d)
    ensures Regs(v.d, na, v.b, v.c) == Renamed(i + 1, Operation(t, w, i, r))
  {
    if i % 4 == 0 {
      assert (i + 1) % 4 == 1;
    } else if i % 4 == 1 {
      assert (i + 1) % 4 == 2;
    } else if i % 4 == 2 {
      assert (i + 1) % 4 == 3;
    } else {
      assert (i + 1) % 4 == 0;
    }
  }

  /** The step of the bulk path: update in place of `a`, then rename. */
  method StepLane(t: Tables, w: Words, i: nat, a: nat, b: nat, c: nat, d: nat, ghost r: Regs)
    returns (a': nat, b': nat, c': nat, d': nat)
    requires Computed(t) && |w| == 16 && i < 64 && Regs(a, b, c, d) == Renamed(i, r)
    ensures Regs(a', b', c', d') == Renamed(i + 1, Operation(t, w, i, r))
  {
    var na := Mix(t, w, i, a, b, c, d);
    RenamedStep(t, w, i, r, Regs(a, b, c, d), na);
    a', b', c', d' := d, na, b, c;
  }

  /** One lane through one block, in renamed locals. */
  ghost predicate InStep(t: Tables, w: Words, i: nat, base: Regs, a: nat, b: nat, c: nat, d: nat) {
    Computed(t) && |w| == 16 && i <= 64 && Regs(a, b, c, d) == Renamed(i, Operations(t, w, i, base))
  }

  method BulkStep(t: Tables, w: Words, i: nat, ghost base: Regs, a: nat, b: nat, c: nat, d: nat)
    returns (a': nat, b': nat, c': nat, d': nat)
    requires InStep(t, w, i, base, a, b, c, d) && i < 64
    ensures InStep(t, w, i + 1, base, a', b', c', d')
  {
    a', b', c', d' := StepLane(t, w, i, a, b, c, d, Operations(t, w, i, base));
  }

  function Four<T>(x0: T, x1: T, x2: T, x3: T): (r: seq<T>)
    ensures |r| == 4 && r[0] == x0 && r[1] == x1 && r[2] == x2 && r[3] == x3
  {
    [x0, x1, x2, x3]
  }

  /** After the last step the names are back in place; the block's input is added. */
  lemma LaneDone(t: Tables, b: Block, base: Regs, a: nat, b': nat, c: nat, d: nat)
    requires InStep(t, WordsOf(b), |t.words|, base, a, b', c, d)
    ensures Plus(Regs(a, b', c, d), base) == Transform(t, base, b)
  {
  }

  /** Four lanes through one block each, the steps of the lanes interleaved. */
  method BulkBlock(t: Tables, k0: Block, k1: Block, k2: Block, k3: Block, s0: Regs, s1: Regs, s2: Regs, s3: Regs)
    returns (r0: Regs, r1: Regs, r2: Regs, r3: Regs)
    requires Computed(t)
    ensures r0 == Transform(t, s0, k0) && r1 == Transform(t, s1, k1)
    ensures r2 == Transform(t, s2, k2) && r3 == Transform(t, s3, k3)
  {
    var m0 := LoadWords(k0);
    var m1 := LoadWords(k1);
    var m2 := LoadWords(k2);
    var m3 := LoadWords(k3);
    var a0, b0, c0, d0 := s0.a, s0.b, s0.c, s0.d;
    var a1, b1, c1, d1 := s1.a, s1.b, s1.c, s1.d;
    var a2, b2, c2, d2 := s2.a, s2.b, s2.c, s2.d;
    var a3, b3, c3, d3 := s3.a, s3.b, s3.c, s3.d;
    for i := 0 to |t.words|
      invariant InStep(t, m0, i, s0, a0, b0, c0, d0)
      invariant InStep(t, m1, i, s1, a1, b1, c1, d1)
      invariant InStep(t, m2, i, s2, a2, b2, c2, d2)
      invariant InStep(t, m3, i, s3, a3, b3, c3, d3)
    {
      a0, b0, c0, d0 := BulkStep(t, m0, i, s0, a0, b0, c0, d0);
      a1, b1, c1, d1 := BulkStep(t, m1, i, s1, a1, b1, c1, d1);
      a2, b2, c2, d2 := BulkStep(t, m2, i, s2, a2, b2, c2, d2);
      a3, b3, c3, d3 := BulkStep(t, m3, i, s3, a3, b3, c3, d3);
    }
    LaneDone(t, k0, s0, a0, b0, c0, d0);
    LaneDone(t, k1, s1, a1, b1, c1, d1);
    LaneDone(t, k2, s2, a2, b2, c2, d2);
    LaneDone(t, k3, s3, a3, b3, c3, d3);
    r0, r1 := Plus(Regs(a0, b0, c0, d0), s0), Plus(Regs(a1, b1, c1, d1), s1);
    r2, r3 := Plus(Regs(a2, b2, c2, d2), s2), Plus(Regs(a3, b3, c3, d3), s3);
  }

  method BulkTransform(t: Tables, states: seq<LaneState>, blocks: seq<seq<Block>>, count: nat) returns (r: seq<LaneState>)
    requires Computed(t) && |states| == |blocks| == 4 && forall l :: 0 <= l < 4 ==> count <= |blocks[l]|
    ensures |r| == 4
    ensures forall l :: 0 <= l < 4 ==> RegsOf(r[l]) == Digested(t, RegsOf(states[l]), blocks[l][..count])
  {
    var k0, k1, k2, k3 := blocks[0], blocks[1], blocks[2], blocks[3];
    var s0, s1, s2, s3 := RegsOf(states[0]), RegsOf(states[1]), RegsOf(states[2]), RegsOf(states[3]);
    ghost var i0, i1, i2, i3 := s0, s1, s2, s3;
    for bi := 0 to count
      invariant s0 == Digested(t, i0, k0[..bi]) && s1 == Digested(t, i1, k1[..bi])
      invariant s2 == Digested(t, i2, k2[..bi]) && s3 == Digested(t, i3, k3[..bi])
    {
      OneMoreBlock(t, i0, k0, bi);
      OneMoreBlock(t, i1, k1, bi);
      OneMoreBlock(t, i2, k2, bi);
      OneMoreBlock(t, i3, k3, bi);
      s0, s1, s2, s3 := BulkBlock(t, k0[bi], k1[bi], k2[bi], k3[bi], s0, s1, s2, s3);
    }
    r := Four(StateOf(s0), StateOf(s1), StateOf(s2), StateOf(s3));
  }

  // ---------- rounds ----------

  function Shortest(blocks: seq<seq<Block>>): (n: nat)
    requires |blocks| == 4
    ensures forall l :: 0 <= l < 4 ==> n <= |blocks[l]|
  {
    Min(Min(|blocks[0]|, |blocks[1]|), Min(|blocks[2]|, |blocks[3]|))
  }

  function Longest(blocks: seq<seq<Block>>): (n: nat)
    requires |blocks| == 4
    ensures forall l :: 0 <= l < 4 ==> n >= |blocks[l]|
  {
    Max(Max(|blocks[0]|, |blocks[1]|), Max(|blocks[2]|, |blocks[3]|))
  }

  function Min(x: nat, y: nat): nat { if x < y then x else y }

  function Max(x: nat, y: nat): nat { if x > y then x else y }

  /** The first `n` blocks of a lane, or all of them. */
  function UpTo(blocks: seq<Block>, n: nat): seq<Block> {
    if n < |blocks| then blocks[..n] else blocks
  }

  /** Each lane that still has a block has digested it. */
  ghost predicate RoundAt(t: Tables, states: seq<LaneState>, blocks: seq<seq<Block>>, pos: nat, r: seq<LaneState>)
    requires TablesOk(t)
  {
    && |states| == |blocks| == |r| == 4
    && forall l :: 0 <= l < 4 ==>
         RegsOf(r[l]) == if pos < |blocks[l]| then Transform(t, RegsOf(states[l]), blocks[l][pos]) else RegsOf(states[l])
  }

  /** One ragged round: every lane that still has a block at `pos` digests it. */
  method RaggedRound(t: Tables, states: seq<LaneState>, blocks: seq<seq<Block>>, pos: nat) returns (r: seq<LaneState>)
    requires Computed(t) && |states| == |blocks| == 4
    ensures RoundAt(t, states, blocks, pos, r)
  {
    var empty: Block := seq(64, _ => 0);
    var round: seq<Block> := seq(4, _ => empty);
    var active := seq(4, _ => false);
    for l := 0 to 4
      invariant |round| == |active| == 4
      invariant forall k :: l <= k < 4 ==> !active[k]
      invariant forall k :: 0 <= k < l ==> active[k] == (pos < |blocks[k]|) && (active[k] ==> round[k] == blocks[k][pos])
    {
      if pos < |blocks[l]| {
        round := round[l := blocks[l][pos]];
        active := active[l := true];
      }
    }
    if active[0] || active[1] || active[2] || active[3] {
      r := ScalarTransform(t, states, round, active);
    } else {
      r := states;
    }
  }

  /** Every lane has digested its first `n` blocks, or all of them. */
  ghost predicate DoneUpTo(t: Tables, states: seq<LaneState>, blocks: seq<seq<Block>>, n: nat, r: seq<LaneState>)
    requires TablesOk(t)
  {
    && |states| == |blocks| == |r| == 4
    && forall l :: 0 <= l < 4 ==> RegsOf(r[l]) == Digested(t, RegsOf(states[l]), UpTo(blocks[l], n))
  }

  lemma OneMoreRound(t: Tables, states: seq<LaneState>, blocks: seq<seq<Block>>, pos: nat, r: seq<LaneState>, r': seq<LaneState>)
    requires TablesOk(t) && DoneUpTo(t, states, blocks, pos, r) && RoundAt(t, r, blocks, pos, r')
    ensures DoneUpTo(t, states, blocks, pos + 1, r')
  {
    forall l | 0 <= l < 4 ensures RegsOf(r'[l]) == Digested(t, RegsOf(states[l]), UpTo(blocks[l], pos + 1)) {
      if pos < |blocks[l]| {
        OneMoreBlock(t, RegsOf(states[l]), blocks[l], pos);
        assert blocks[l][..|blocks[l]|] == blocks[l];
      }
    }
  }

  /** Bulk while every lane has blocks, then one ragged round at a time. */
  method CompressRounds(t: Tables, states: seq<LaneState>, blocks: seq<seq<Block>>) returns (r: seq<LaneState>)
    requires Computed(t) && |states| == |blocks| == 4
    ensures |r| == 4
    ensures forall l :: 0 <= l < 4 ==> RegsOf(r[l]) == Digested(t, RegsOf(states[l]), blocks[l])
  {
    var common := Shortest(blocks);
    r := Common(t, states, blocks, common);
    var longest := Longest(blocks);
    r := RaggedRounds(t, states, blocks, common, longest, r);
    AllDone(t, states, blocks, longest, r);
  }

  method RaggedRounds(t: Tables, states: seq<LaneState>, blocks: seq<seq<Block>>, from: nat, to: nat,
                      start: seq<LaneState>) returns (r: seq<LaneState>)
    requires Computed(t) && DoneUpTo(t, states, blocks, from, start) && from <= to
    ensures DoneUpTo(t, states, blocks, to, r)
  {
    r := start;
    for pos := from to to
      invariant DoneUpTo(t, states, blocks, pos, r)
    {
      ghost var before := r;
      r := RaggedRound(t, r, blocks, pos);
      OneMoreRound(t, states, blocks, pos, before, r);
    }
  }

  lemma AllDone(t: Tables, states: seq<LaneState>, blocks: seq<seq<Block>>, n: nat, r: seq<LaneState>)
    requires TablesOk(t) && DoneUpTo(t, states, blocks, n, r) && forall l :: 0 <= l < 4 ==> n >= |blocks[l]|
    ensures |r| == 4 && |states| == 4
    ensures forall l :: 0 <= l < 4 ==> RegsOf(r[l]) == Digested(t, RegsOf(states[l]), blocks[l])
  {
  }

  method Common(t: Tables, states: seq<LaneState>, blocks: seq<seq<Block>>, common: nat) returns (r: seq<LaneState>)
    requires Computed(t) && |states| == |blocks| == 4 && forall l :: 0 <= l < 4 ==> common <= |blocks[l]|
    ensures DoneUpTo(t, states, blocks, common, r)
  {
    r := states;
    if common > 0 {
      r := BulkTransform(t, states, blocks, common);
    }
    forall l | 0 <= l < 4 ensures blocks[l][..common] == UpTo(blocks[l], common) {
    }
  }

  // ---------- buffering ----------

  /** Fills up a block that was begun; says how much of `src` went in and whether the block is full. */
  method FillUp(buf: Octets, fill: nat, src: Octets) returns (buf': Octets, pos: nat, full: bool)
    requires |buf| == 128 && 0 < fill < 64
    ensures |buf'| == 128 && pos <= |src| && full == (fill + pos == 64) && (!full ==> pos == |src|) && fill + pos <= 64
    ensures buf'[..fill + pos] == buf[..fill] + src[..pos]
  {
    var need := 64 - fill;
    pos := if need < |src| then need else |src|;
    buf' := buf[..fill] + src[..pos] + buf[fill + pos..];
    full := fill + pos == 64;
  }

  /** The whole blocks of `src` from `pos` on. */
  method WholeBlocks(src: Octets, pos: nat) returns (blocks: seq<Block>, end: nat)
    requires pos <= |src|
    ensures pos <= end <= |src| < end + 64 && end - pos == 64 * |blocks|
    ensures blocks == Chopped(src[pos..])
  {
    blocks, end := [], pos;
    ghost var all := src[pos..];
    while |src| - end >= 64
      invariant pos <= end <= |src| && end - pos == 64 * |blocks|
      invariant forall i :: 0 <= i < |blocks| ==> blocks[i] == all[64 * i..64 * i + 64]
    {
      assert src[end..end + 64] == all[64 * |blocks|..64 * |blocks| + 64];
      blocks := blocks + [src[end..end + 64]];
      end := end + 64;
    }
  }

  lemma ChoppedAt(begun: Octets, src: Octets, pos: nat)
    requires pos <= |src|
    ensures Chopped(begun + src) == Chopped(begun + src[..pos]) + Chopped(Rest(begun + src[..pos]) + src[pos..])
    ensures Rest(begun + src) == Rest(Rest(begun + src[..pos]) + src[pos..])
  {
    assert begun + src == (begun + src[..pos]) + src[pos..];
    ChoppedExtends(begun + src[..pos], src[pos..]);
  }

  /** A block that was begun takes what it can of `src`. */
  method Resume(buf: Octets, fill: nat, src: Octets) returns (buf': Octets, fill': nat, pos: nat, blocks: seq<Block>)
    requires |buf| == 128 && fill < 64
    ensures |buf'| == 128 && fill' < 64 && pos <= |src| && (fill' != 0 ==> pos == |src|)
    ensures blocks == Chopped(buf[..fill] + src[..pos])
    ensures buf'[..fill'] == Rest(buf[..fill] + src[..pos])
  {
    pos := 0;
    buf', fill', blocks := buf, fill, [];
    if fill > 0 {
      var full;
      buf', pos, full := FillUp(buf, fill, src);
      fill' := fill + pos;
      if full {
        blocks := [buf'[..64]];
        fill' := 0;
      }
    }
    StartedBlock(buf[..fill] + src[..pos]);
  }

  lemma NothingBegun(src: Octets, pos: nat)
    requires pos <= |src|
    ensures [] + src[pos..] == src[pos..]
  {
  }

  /** A lane's buffer takes `src`: whole blocks come out, the rest stays. */
  method Absorb(buf: Octets, fill: nat, src: Octets) returns (buf': Octets, fill': nat, blocks: seq<Block>)
    requires |buf| == 128 && fill < 64
    ensures |buf'| == 128 && fill' < 64
    ensures blocks == Chopped(buf[..fill] + src)
    ensures buf'[..fill'] == Rest(buf[..fill] + src)
  {
    var pos;
    buf', fill', pos, blocks := Resume(buf, fill, src);
    ghost var begun := buf[..fill] + src[..pos];
    ChoppedAt(buf[..fill], src, pos);
    var more, end := WholeBlocks(src, pos);
    blocks := blocks + more;
    if fill' == 0 {
      assert Rest(begun) == [];
      NothingBegun(src, pos);
      var tail := src[end..];
      buf' := tail + buf'[|tail|..];
      fill' := |tail|;
      assert Rest(src[pos..]) == tail;
    } else {
      WholeOrRest(begun, src, pos);
    }
  }

  /** Without anything more the rest stays. */
  lemma WholeOrRest(begun: Octets, src: Octets, pos: nat)
    requires pos == |src|
    ensures Chopped(src[pos..]) == [] && Chopped(Rest(begun) + src[pos..]) == [] && Rest(Rest(begun) + src[pos..]) == Rest(begun)
  {
    assert Rest(begun) + src[pos..] == Rest(begun);
  }

  /** Nothing, or exactly one block, leaves no rest. */
  lemma StartedBlock(data: Octets)
    ensures |data| == 0 ==> Chopped(data) == [] && Rest(data) == []
    ensures |data| == 64 ==> Chopped(data) == [data] && Rest(data) == []
  {
    if |data| == 64 {
      assert Chopped(data)[0] == data[64 * 0..64 * 0 + 64] == data;
    }
  }

  /** The padded end of a lane, for a message of `n` bytes: at most two blocks. */
  method Pad(buf: Octets, fill: nat, length: nat, ghost n: nat) returns (blocks: seq<Block>)
    requires |buf| == 128 && n % 64 == fill && n % M64 == length
    ensures blocks == Chopped(buf[..fill] + Padding(n))
    ensures 1 <= |blocks| <= 2
  {
    PaddingFits(n);
    SamePadding(n, fill, length);
    var b, at := Zeroes(buf[fill := 0x80], fill + 1, fill);
    var bits := (length * 8) % M64;
    b := b[..at] + LeBytes(bits, LENGTH_BYTES) + b[at + 8..];
    at := at + 8;
    assert b[..at] == buf[..fill] + Padding(n);
    blocks := Cut(b, at);
  }

  /** Zero bytes up to the place of the length. */
  method Zeroes(buf: Octets, from: nat, ghost fill: nat) returns (b: Octets, at: nat)
    requires |buf| == 128 && from == fill + 1 && fill < 64
    ensures |b| == 128 && at == from + ZeroCount(fill) <= 120
    ensures b[..at] == buf[..from] + ZeroBytes(ZeroCount(fill))
  {
    b, at := buf, from;
    while at % 64 != 56
      invariant |b| == 128 && from <= at <= from + ZeroCount(fill) <= 120
      invariant b[..at] == buf[..from] + ZeroBytes(at - from)
      decreases from + ZeroCount(fill) - at
    {
      b := b[at := 0];
      at := at + 1;
    }
  }

  method Cut(b: Octets, end: nat) returns (blocks: seq<Block>)
    requires end <= |b| && end % 64 == 0
    ensures blocks == Chopped(b[..end])
  {
    blocks := [];
    var off := 0;
    while off + 64 <= end
      invariant off == 64 * |blocks| <= end
      invariant forall i :: 0 <= i < |blocks| ==> blocks[i] == b[..end][64 * i..64 * i + 64]
    {
      assert b[off..off + 64] == b[..end][off..off + 64];
      blocks := blocks + [b[off..off + 64]];
      off := off + 64;
    }
  }

  /** Padding depends on the length only modulo 64 bytes and 2^64 bits. */
  lemma SamePadding(n: nat, fill: nat, length: nat)
    requires n % 64 == fill && n % M64 == length
    ensures ZeroCount(n) == ZeroCount(fill)
    ensures (8 * n) % M64 == (length * 8) % M64
  {
    BitsWrap(n, n / M64, length);
  }

  lemma BitsWrap(n: nat, q: nat, length: nat)
    requires n == M64 * q + length
    ensures (8 * n) % M64 == (length * 8) % M64
  {
    Mod64(8 * q, 8 * length);
  }

  lemma Mod64(q: nat, x: nat)
    ensures (M64 * q + x) % M64 == x % M64
  {
  }

  // ---------- the hasher ----------

  /** What a lane holds after the bytes of `msg`. */
  ghost predicate LaneOk(t: Tables, msg: Octets, st: LaneState, buf: Octets, fill: nat, length: nat) {
    && TablesOk(t) && |buf| == 128 && fill < 64 && buf[..fill] == Rest(msg)
    && length == |msg| % M64
    && RegsOf(st) == Digested(t, INITIAL, Chopped(msg))
  }

  /** What a lane's part of an update leaves behind, before compression. */
  ghost predicate Absorbed(msg: Octets, src: Octets, buf: Octets, fill: nat, length: nat, blocks: seq<Block>) {
    && |buf| == 128 && fill < 64 && buf[..fill] == Rest(msg + src)
    && length == |msg + src| % M64
    && Chopped(msg + src) == Chopped(msg) + blocks
  }

  lemma LengthsAdd(n: nat, m: nat)
    ensures (n % M64 + m) % M64 == (n + m) % M64
  {
  }

  lemma Compressed(t: Tables, msg: Octets, src: Octets, st: LaneState, st': LaneState, buf: Octets, fill: nat,
                   length: nat, blocks: seq<Block>)
    requires TablesOk(t) && RegsOf(st) == Digested(t, INITIAL, Chopped(msg))
    requires RegsOf(st') == Digested(t, RegsOf(st), blocks)
    requires Absorbed(msg, src, buf, fill, length, blocks)
    ensures LaneOk(t, msg + src, st', buf, fill, length)
  {
    DigestedAppend(t, INITIAL, Chopped(msg), blocks);
  }

  lemma Finished(t: Tables, msg: Octets, st: LaneState, st': LaneState, blocks: seq<Block>)
    requires TablesOk(t) && RegsOf(st) == Digested(t, INITIAL, Chopped(msg))
    requires blocks == Chopped(Rest(msg) + Padding(|msg|))
    requires RegsOf(st') == Digested(t, RegsOf(st), blocks)
    ensures Output(RegsOf(st')) == Hashed(t, msg)
  {
    ChoppedExtends(msg, Padding(|msg|));
    DigestedAppend(t, INITIAL, Chopped(msg), blocks);
  }

  function Repeated<T>(x: T): (r: seq<T>)
    ensures |r| == 4 && forall l :: 0 <= l < 4 ==> r[l] == x
  {
    seq(4, _ => x)
  }

  lemma FirstLane(t: Tables, st: LaneState, buf: Octets)
    requires TablesOk(t) && |buf| == 128 && RegsOf(st) == INITIAL
    ensures LaneOk(t, [], st, buf, 0, 0)
  {
  }

  /** Four lanes before any message. */
  lemma FirstLanes(t: Tables, st: LaneState, buf: Octets)
    requires TablesOk(t) && |buf| == 128 && RegsOf(st) == INITIAL
    ensures LanesOk(t, Repeated([]), Repeated(st), Repeated(buf), Repeated(0), Repeated(0))
  {
    FirstLane(t, st, buf);
  }

  ghost predicate LanesOk(t: Tables, messages: seq<Octets>, states: seq<LaneState>, bufs: seq<Octets>, fill: seq<nat>,
                          lengths: seq<nat>)
    requires TablesOk(t)
  {
    && |states| == |bufs| == |fill| == |lengths| == |messages| == 4
    && forall l :: 0 <= l < 4 ==> LaneOk(t, messages[l], states[l], bufs[l], fill[l], lengths[l])
  }

  /** The registers of a lane that has just started. */
  function FirstState(): (st: LaneState)
    ensures RegsOf(st) == INITIAL
  {
    StateOf(INITIAL)
  }

  function FirstBuffer(): (buf: Octets)
    ensures |buf| == 128
  {
    ZeroBytes(128)
  }

  function Appended(msgs: seq<Octets>, streams: seq<Octets>): (r: seq<Octets>)
    requires |msgs| == |streams|
    ensures |r| == |msgs| && forall l :: 0 <= l < |r| ==> r[l] == msgs[l] + streams[l]
  {
    seq(|msgs|, l requires 0 <= l < |msgs| => msgs[l] + streams[l])
  }

  class Md5Multi4 {
    const tables: Tables
    var states: seq<LaneState>
    var bufs: seq<Octets>
    var fill: seq<nat>
    var lengths: seq<nat>
    /** The four messages so far. */
    ghost var messages: seq<Octets>

    ghost predicate Valid()
      reads this
    {
      Computed(tables) && LanesOk(tables, messages, states, bufs, fill, lengths)
    }

    constructor (tables: Tables)
      requires Computed(tables)
      ensures Valid() && this.tables == tables && messages == Repeated([])
    {
      this.tables := tables;
      var st, buf := FirstState(), FirstBuffer();
      states, bufs := Repeated(st), Repeated(buf);
      fill, lengths := Repeated(0), Repeated(0);
      messages := Repeated([]);
      FirstLanes(tables, st, buf);
    }

    /** Appends to each of the four messages. */
    method Update(streams: seq<Octets>)
      requires Valid() && |streams| == 4
      modifies this
      ensures Valid()
      ensures messages == Appended(old(messages), streams)
    {
      var bs, fs, ls, blocks := AbsorbAll(bufs, fill, lengths, streams, messages);
      bufs, fill, lengths := bs, fs, ls;
      ghost var before := states;
      states := CompressRounds(tables, states, blocks);
      ghost var longer := Appended(messages, streams);
      forall l | 0 <= l < 4 ensures LaneOk(tables, longer[l], states[l], bufs[l], fill[l], lengths[l]) {
        Compressed(tables, messages[l], streams[l], before[l], states[l], bufs[l], fill[l], lengths[l], blocks[l]);
      }
      messages := longer;
    }

    /** Each lane's digest is the MD5 of its own message, however the message was split. */
    method Finalize() returns (out: seq<Octets>)
      requires Valid()
      modifies this`states
      ensures |out| == 4 && forall l :: 0 <= l < 4 ==> out[l] == Hashed(tables, messages[l])
    {
      var blocks := PadAll(bufs, fill, lengths, messages);
      ghost var before := states;
      states := CompressRounds(tables, states, blocks);
      out := Outputs(states);
      forall l | 0 <= l < 4 ensures out[l] == Hashed(tables, messages[l]) {
        Finished(tables, messages[l], before[l], states[l], blocks[l]);
      }
    }
  }

  /** A lane's buffer after `msg`. */
  ghost predicate Buffered(msg: Octets, buf: Octets, fill: nat, length: nat) {
    |buf| == 128 && fill < 64 && buf[..fill] == Rest(msg) && length == |msg| % M64
  }

  method AbsorbAll(bufs: seq<Octets>, fill: seq<nat>, lengths: seq<nat>, streams: seq<Octets>, ghost msgs: seq<Octets>)
    returns (bufs': seq<Octets>, fill': seq<nat>, lengths': seq<nat>, blocks: seq<seq<Block>>)
    requires |bufs| == |fill| == |lengths| == |streams| == |msgs| == 4
    requires forall l :: 0 <= l < 4 ==> Buffered(msgs[l], bufs[l], fill[l], lengths[l])
    ensures |bufs'| == |fill'| == |lengths'| == |blocks| == 4
    ensures forall l :: 0 <= l < 4 ==> Absorbed(msgs[l], streams[l], bufs'[l], fill'[l], lengths'[l], blocks[l])
  {
    bufs', fill', lengths', blocks := bufs, fill, lengths, [];
    for l := 0 to 4
      invariant |bufs'| == |fill'| == |lengths'| == 4 && |blocks| == l
      invariant forall k :: l <= k < 4 ==> bufs'[k] == bufs[k] && fill'[k] == fill[k] && lengths'[k] == lengths[k]
      invariant forall k :: 0 <= k < l ==> Absorbed(msgs[k], streams[k], bufs'[k], fill'[k], lengths'[k], blocks[k])
    {
      LengthsAdd(|msgs[l]|, |streams[l]|);
      ChoppedExtends(msgs[l], streams[l]);
      lengths' := lengths'[l := (lengths'[l] + |streams[l]|) % M64];
      var b, f, bs := Absorb(bufs'[l], fill'[l], streams[l]);
      bufs', fill', blocks := bufs'[l := b], fill'[l := f], blocks + [bs];
    }
  }

  method PadAll(bufs: seq<Octets>, fill: seq<nat>, lengths: seq<nat>, ghost msgs: seq<Octets>)
    returns (blocks: seq<seq<Block>>)
    requires |bufs| == |fill| == |lengths| == |msgs| == 4
    requires forall l :: 0 <= l < 4 ==> Buffered(msgs[l], bufs[l], fill[l], lengths[l])
    ensures |blocks| == 4
    ensures forall l :: 0 <= l < 4 ==> blocks[l] == Chopped(Rest(msgs[l]) + Padding(|msgs[l]|))
  {
    blocks := [];
    for l := 0 to 4
      invariant |blocks| == l
      invariant forall k :: 0 <= k < l ==> blocks[k] == Chopped(Rest(msgs[k]) + Padding(|msgs[k]|))
    {
      var bs := Pad(bufs[l], fill[l], lengths[l], |msgs[l]|);
      blocks := blocks + [bs];
    }
  }

  method Outputs(states: seq<LaneState>) returns (out: seq<Octets>)
    requires |states| == 4
    ensures |out| == 4 && forall l :: 0 <= l < 4 ==> out[l] == Output(RegsOf(states[l]))
  {
    out := [];
    for l := 0 to 4
      invariant |out| == l && forall k :: 0 <= k < l ==> out[k] == Output(RegsOf(states[k]))
    {
      var st := states[l];
      out := out + [LeBytes(st[0], WORD_BYTES) + LeBytes(st[1], WORD_BYTES) +
                    LeBytes(st[2], WORD_BYTES) + LeBytes(st[3], WORD_BYTES)];
    }
  }

  /** Four messages in one go: each digest is what RFC 1321 prescribes. */
  method Digest(streams: seq<Octets>) returns (out: seq<Octets>)
    requires |streams| == 4
    ensures TablesOk(Rfc1321())
    ensures |out| == 4 && forall l :: 0 <= l < 4 ==> out[l] == Hashed(Rfc1321(), streams[l])
  {
    ConstantsAreRfc1321();
    out := DigestWith(Constants(), streams);
  }

  method DigestWith(tables: Tables, streams: seq<Octets>) returns (out: seq<Octets>)
    requires Computed(tables) && |streams| == 4
    ensures |out| == 4 && forall l :: 0 <= l < 4 ==> out[l] == Hashed(tables, streams[l])
  {
    var h := new Md5Multi4(tables);
    h.Update(streams);
    forall l | 0 <= l < 4 ensures h.messages[l] == streams[l] {
      assert [] + streams[l] == streams[l];
    }
    out := h.Finalize();
  }
}
