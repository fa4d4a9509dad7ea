/** What the allocator's methods rely on: range lists, and how far an allocation has come. */
module Allocation {
  import opened Ledgers
  import opened Rollbacks

  /** What one turn of the allocation loop found. */
  datatype Turned = Full | Aside(id: nat) | Took(id: nat)

  datatype AllocResult = Allocated(ids: seq<nat>) | NoSpace

  /** The extents that an allocation may hand out. */
  ghost function Available(s: Ledger): set<nat>
    requires WellFormed(s)
  {
    set e: nat | e < |s.bits| && !s.bits[e] && s.pins[e] == 0
  }

  // ---------- ranges ----------

  /** Inserts into an increasing list without duplicating. */
  function InsertSorted(x: nat, s: seq<nat>): seq<nat> {
    if s == [] || x < s[0] then [x] + s
    else if x == s[0] then s
    else [s[0]] + InsertSorted(x, s[1..])
  }

  /** Sorted and without duplicates. */
  function Ascending(ids: seq<nat>): seq<nat> {
    if ids == [] then [] else InsertSorted(ids[0], Ascending(ids[1..]))
  }

  ghost predicate Increasing(s: seq<nat>) {
    forall i, j :: 0 <= i < j < |s| ==> s[i] < s[j]
  }

  lemma PrependIncreases(x: nat, s: seq<nat>)
    requires Increasing(s) && forall e :: e in s ==> x < e
    ensures Increasing([x] + s)
  {
    forall i, j | 0 <= i < j < |[x] + s| ensures ([x] + s)[i] < ([x] + s)[j] {
      if i == 0 {
        assert s[j - 1] in s;
      }
    }
  }

  lemma {:induction false} InsertElements(x: nat, s: seq<nat>)
    requires Increasing(s)
    ensures forall e :: e in InsertSorted(x, s) <==> e == x || e in s
    ensures multiset(InsertSorted(x, s)) == if x in s then multiset(s) else multiset(s) + multiset{x}
    decreases |s|
  {
    if s != [] {
      assert s == [s[0]] + s[1..];
      if x > s[0] {
        InsertElements(x, s[1..]);
      } else if x < s[0] {
        assert x !in s;
      }
    }
  }

  lemma {:induction false} InsertIncreases(x: nat, s: seq<nat>)
    requires Increasing(s)
    ensures Increasing(InsertSorted(x, s))
    decreases |s|
  {
    if s == [] {
    } else if x < s[0] {
      PrependIncreases(x, s);
    } else if x > s[0] {
      InsertIncreases(x, s[1..]);
      InsertElements(x, s[1..]);
      PrependIncreases(s[0], InsertSorted(x, s[1..]));
    }
  }

  lemma {:induction false} AscendingSorts(ids: seq<nat>)
    ensures Increasing(Ascending(ids))
    ensures forall e :: e in Ascending(ids) <==> e in ids
    ensures Distinct(ids) ==> multiset(Ascending(ids)) == multiset(ids)
  {
    if ids != [] {
      AscendingSorts(ids[1..]);
      InsertIncreases(ids[0], Ascending(ids[1..]));
      InsertElements(ids[0], Ascending(ids[1..]));
      assert ids == [ids[0]] + ids[1..];
    }
  }

  /** Extends the last range by the next id when it is adjacent, else opens a new range. */
  function RangesFrom(out: seq<(nat, nat)>, sorted: seq<nat>): seq<(nat, nat)>
    decreases |sorted|
  {
    if sorted == [] then out else RangesFrom(AddToRanges(out, sorted[0]), sorted[1..])
  }

  function AddToRanges(out: seq<(nat, nat)>, id: nat): seq<(nat, nat)> {
    if out != [] && out[|out| - 1].0 + out[|out| - 1].1 == id
    then out[|out| - 1 := (out[|out| - 1].0, out[|out| - 1].1 + 1)]
    else out + [(id, 1)]
  }

  function Ranges(ids: seq<nat>): seq<(nat, nat)> {
    RangesFrom([], Ascending(ids))
  }

  lemma ExpandLast(init: seq<(nat, nat)>, r: (nat, nat))
    ensures Expand(init + [r]) == Expand(init) + Span(r.0, r.1)
  {
    ExpandAppend(init, [r]);
    ExpandOne(r);
  }

  lemma SpanGrows(start: nat, count: nat)
    ensures Span(start, count + 1) == Span(start, count) + [start + count]
  {
  }

  lemma AddToRangesExpands(out: seq<(nat, nat)>, id: nat)
    ensures Expand(AddToRanges(out, id)) == Expand(out) + [id]
  {
    if out != [] && out[|out| - 1].0 + out[|out| - 1].1 == id {
      var init := out[..|out| - 1];
      var (start, count) := out[|out| - 1];
      assert out == init + [(start, count)];
      assert AddToRanges(out, id) == init + [(start, count + 1)];
      ExpandLast(init, (start, count));
      ExpandLast(init, (start, count + 1));
      SpanGrows(start, count);
      assert Expand(init) + (Span(start, count) + [id]) == Expand(init) + Span(start, count) + [id];
    } else {
      ExpandLast(out, (id, 1));
    }
  }

  lemma ExpandOne(r: (nat, nat))
    ensures Expand([r]) == Span(r.0, r.1)
  {
    assert [r][1..] == [];
    assert Expand([r][1..]) == [];
  }

  lemma {:induction false} RangesFromExpand(out: seq<(nat, nat)>, sorted: seq<nat>)
    ensures Expand(RangesFrom(out, sorted)) == Expand(out) + sorted
    decreases |sorted|
  {
    if sorted != [] {
      AddToRangesExpands(out, sorted[0]);
      RangesFromExpand(AddToRanges(out, sorted[0]), sorted[1..]);
      assert Expand(out) + [sorted[0]] + sorted[1..] == Expand(out) + sorted;
    }
  }

  /** The ranges list exactly the ids, in increasing order. */
  lemma RangesExpand(ids: seq<nat>)
    ensures Expand(Ranges(ids)) == Ascending(ids)
    ensures Distinct(ids) ==> multiset(Expand(Ranges(ids))) == multiset(ids)
  {
    AscendingSorts(ids);
    RangesFromExpand([], Ascending(ids));
    assert Expand([]) + Ascending(ids) == Ascending(ids);
  }

  method CompressRanges(ids: seq<nat>) returns (out: seq<(nat, nat)>)
    ensures out == Ranges(ids)
    ensures Increasing(Expand(out)) && forall e :: e in Expand(out) <==> e in ids
  {
    var sorted := Ascending(ids);
    out := [];
    for i := 0 to |sorted|
      invariant RangesFrom(out, sorted[i..]) == Ranges(ids)
    {
      assert sorted[i..][1..] == sorted[i + 1..];
      out := AddToRanges(out, sorted[i]);
    }
    assert sorted[|sorted|..] == [];
    RangesExpand(ids);
    AscendingSorts(ids);
  }

  method ExpandRanges(ranges: seq<(nat, nat)>) returns (ids: seq<nat>)
    ensures ids == Expand(ranges)
  {
    ids := [];
    for i := 0 to |ranges|
      invariant ids + Expand(ranges[i..]) == Expand(ranges)
    {
      assert ranges[i..][1..] == ranges[i + 1..];
      ids := ids + Span(ranges[i].0, ranges[i].1);
    }
    assert ranges[|ranges|..] == [];
  }

  // ---------- facts about a scan in progress ----------

  function UpTo(n: nat): (r: set<nat>)
    ensures forall e :: e in r <==> 0 <= e < n
    ensures |r| == n
  {
    if n == 0 then {} else UpTo(n - 1) + {n - 1}
  }

  function ToSet(ids: seq<nat>): set<nat> {
    set e | e in ids
  }

  lemma {:induction false} DistinctSize(ids: seq<nat>)
    requires Distinct(ids)
    ensures |ToSet(ids)| == |ids|
  {
    if ids != [] {
      DistinctSize(ids[1..]);
      assert ids[0] !in ids[1..];
      assert ToSet(ids) == {ids[0]} + ToSet(ids[1..]);
    }
  }

  lemma SubsetSize(a: set<nat>, b: set<nat>)
    requires a <= b
    ensures |a| <= |b|
  {
    assert b == a + (b - a);
  }

  lemma TakenFits(s: Ledger, ids: seq<nat>, skipped: set<nat>)
    requires MayTake(s, ids, skipped)
    ensures |ids| + |skipped| <= |s.bits|
  {
    DistinctSize(ids);
    assert ToSet(ids) !! skipped;
    SubsetSize(ToSet(ids) + skipped, UpTo(|s.bits|));
  }

  /** When the bitmap is full, everything that was available has been taken. */
  lemma ExhaustedAvailable(s: Ledger, ids: seq<nat>, skipped: set<nat>, bits: seq<bool>)
    requires WellFormed(s) && MayTake(s, ids, skipped) && |bits| == |s.bits|
    requires forall e :: 0 <= e < |bits| ==> bits[e] == (s.bits[e] || e in skipped || e in ids)
    requires forall e :: 0 <= e < |bits| ==> bits[e]
    ensures |Available(s)| == |ids|
  {
    DistinctSize(ids);
    forall e ensures e in Available(s) <==> e in ids {
      if e in ids {
        var i :| 0 <= i < |ids| && ids[i] == e;
      }
      if e in Available(s) {
        assert bits[e];
      }
    }
    assert Available(s) == ToSet(ids);
  }

  lemma EnoughAvailable(s: Ledger, ids: seq<nat>, skipped: set<nat>)
    requires WellFormed(s) && MayTake(s, ids, skipped)
    ensures |Available(s)| >= |ids|
  {
    DistinctSize(ids);
    forall e | e in ToSet(ids) ensures e in Available(s) {
      var i :| 0 <= i < |ids| && ids[i] == e;
    }
    SubsetSize(ToSet(ids), Available(s));
  }

  lemma {:induction false} TakeAppend(s: Ledger, ids: seq<nat>, x: nat)
    requires WellFormed(s) && Below(ids, |s.bits|) && x < |s.bits|
    ensures var t := TakeAll(s, ids);
      TakeAll(s, ids + [x]) == t.(bits := t.bits[x := true], refcounts := t.refcounts[x := 0],
                                  generations := t.generations[x := t.generations[x] + 1],
                                  totalAlloc := t.totalAlloc + 1)
    decreases |ids|
  {
    if ids == [] {
      assert (ids + [x])[1..] == [];
    } else {
      var e := ids[0];
      assert (ids + [x])[1..] == ids[1..] + [x];
      TakeAppend(s.(bits := s.bits[e := true], refcounts := s.refcounts[e := 0],
                    generations := s.generations[e := s.generations[e] + 1],
                    totalAlloc := s.totalAlloc + 1), ids[1..], x);
    }
  }

  function SetAside(s: Ledger, x: nat): (r: Ledger)
    requires WellFormed(s) && x < |s.bits|
    ensures WellFormed(r)
  {
    s.(bits := s.bits[x := true], isolated := s.isolated + {x})
  }

  lemma {:induction false} TakeAside(s: Ledger, ids: seq<nat>, x: nat)
    requires WellFormed(s) && Below(ids, |s.bits|) && x < |s.bits| && x !in ids
    ensures TakeAll(SetAside(s, x), ids) == SetAside(TakeAll(s, ids), x)
    decreases |ids|
  {
    if ids != [] {
      var e := ids[0];
      var t := s.(bits := s.bits[e := true], refcounts := s.refcounts[e := 0],
                  generations := s.generations[e := s.generations[e] + 1], totalAlloc := s.totalAlloc + 1);
      assert s.bits[x := true][e := true] == s.bits[e := true][x := true];
      TakeAside(t, ids[1..], x);
    }
  }

  lemma SkipOne(s: Ledger, skipped: set<nat>, ids: seq<nat>, x: nat)
    requires WellFormed(s) && Below(ids, |s.bits|) && x < |s.bits| && x !in ids
    ensures TakeAll(Isolate(s, skipped + {x}), ids) == SetAside(TakeAll(Isolate(s, skipped), ids), x)
  {
    var a, b := Isolate(s, skipped + {x}), SetAside(Isolate(s, skipped), x);
    assert a.bits == b.bits;
    assert a.isolated == b.isolated;
    assert a == b;
    TakeAside(Isolate(s, skipped), ids, x);
  }

  /** How far an allocation has come: `out` taken, `skipped` set aside. */
  ghost predicate Progress(begin: Ledger, s: Ledger, out: seq<nat>, skipped: set<nat>) {
    && WellFormed(begin) && MayTake(begin, out, skipped)
    && s == TakeAll(Isolate(begin, skipped), out)
  }

  lemma ProgressBits(begin: Ledger, s: Ledger, out: seq<nat>, skipped: set<nat>)
    requires Progress(begin, s, out, skipped)
    ensures WellFormed(s) && |s.bits| == |begin.bits| && s.pins == begin.pins
    ensures forall e :: 0 <= e < |s.bits| ==> s.bits[e] == (begin.bits[e] || e in skipped || e in out)
    ensures |out| + |skipped| <= |begin.bits|
  {
    TakeAllAt(Isolate(begin, skipped), out);
    TakenFits(begin, out, skipped);
  }

  lemma ProgressSkip(begin: Ledger, s: Ledger, out: seq<nat>, skipped: set<nat>, x: nat)
    requires Progress(begin, s, out, skipped) && x < |s.bits| == |begin.bits| && !s.bits[x]
    requires |s.pins| == |s.bits| && s.pins[x] > 0
    ensures WellFormed(s) && Progress(begin, SetAside(s, x), out, skipped + {x})
    ensures |skipped + {x}| == |skipped| + 1 && |out| + |skipped| + 1 <= |begin.bits|
  {
    ProgressBits(begin, s, out, skipped);
    SkipOne(begin, skipped, out, x);
    TakenFits(begin, out, skipped + {x});
  }

  function TookOne(s: Ledger, x: nat): Ledger
    requires WellFormed(s) && x < |s.bits|
  {
    s.(bits := s.bits[x := true], refcounts := s.refcounts[x := 0],
       generations := s.generations[x := s.generations[x] + 1], totalAlloc := s.totalAlloc + 1)
  }

  lemma ProgressTake(begin: Ledger, s: Ledger, out: seq<nat>, skipped: set<nat>, x: nat)
    requires Progress(begin, s, out, skipped) && x < |s.bits| == |begin.bits| && !s.bits[x]
    requires |s.pins| == |s.bits| && s.pins[x] == 0
    ensures WellFormed(s) && Progress(begin, TookOne(s, x), out + [x], skipped)
    ensures |out| + 1 + |skipped| <= |begin.bits|
  {
    ProgressBits(begin, s, out, skipped);
    TakeAppend(Isolate(begin, skipped), out, x);
    assert forall i :: 0 <= i < |out| ==> out[i] in out;
    TakenFits(begin, out + [x], skipped);
  }
}
