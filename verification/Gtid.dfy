/** Sets of global transaction ids: for each epoch, a list of closed intervals of sequence numbers. */
module Gtids {
  import opened Words

  const U64_MAX: nat := U64_LIMIT - 1

  type Range = (nat, nat)

  type Epochs = map<nat, seq<Range>>

  function SaturatingSucc(x: nat): nat {
    if x >= U64_MAX then U64_MAX else x + 1
  }

  // ---------- one epoch ----------

  /** Some interval contains `x`. */
  ghost predicate Covers(v: seq<Range>, x: nat) {
    exists i :: 0 <= i < |v| && v[i].0 <= x <= v[i].1
  }

  /** Intervals are not empty, ascend, and leave a gap between each other. */
  ghost predicate Canonical(v: seq<Range>) {
    && (forall i :: 0 <= i < |v| ==> 1 <= v[i].0 <= v[i].1 <= U64_MAX)
    && forall i, j :: 0 <= i < j < |v| ==> v[i].1 + 1 < v[j].0
  }

  /** The first interval that reaches `x`: `partition_point(|(_, e)| e < x)`, or with `adjacent`
      also one that ends just before it: `partition_point(|(_, e)| e.saturating_add(1) < x)`. */
  function FirstReaching(v: seq<Range>, x: nat, adjacent: bool): (idx: nat)
    ensures idx <= |v|
    ensures forall i :: 0 <= i < idx ==> Reach(v[i].1, adjacent) < x
    ensures idx < |v| ==> Reach(v[idx].1, adjacent) >= x
  {
    if v == [] || Reach(v[0].1, adjacent) >= x then 0 else 1 + FirstReaching(v[1..], x, adjacent)
  }

  function Reach(end: nat, adjacent: bool): nat {
    if adjacent then SaturatingSucc(end) else end
  }

  /** The loop of an insertion: swallows every interval from `idx` on that touches the growing one. */
  method Swallow(v: seq<Range>, idx: nat, start: nat, end: nat) returns (s: nat, e: nat, j: nat)
    requires Canonical(v) && idx <= |v| && 1 <= start <= end <= U64_MAX
    requires forall i :: 0 <= i < idx ==> v[i].1 + 1 < start
    requires idx < |v| ==> SaturatingSucc(v[idx].1) >= start
    ensures idx <= j <= |v| && 1 <= s <= start && end <= e <= U64_MAX
    ensures forall i :: 0 <= i < idx ==> v[i].1 + 1 < s
    ensures forall i :: j <= i < |v| ==> e + 1 < v[i].0
    ensures forall i :: idx <= i < j ==> s <= v[i].0 && v[i].1 <= e
    ensures forall x {:trigger Covers(v, x)} :: s <= x <= e ==> Covers(v, x) || start <= x <= end
  {
    s, e := start, end;
    j := idx;
    while j < |v| && v[j].0 <= SaturatingSucc(e)
      invariant idx <= j <= |v| && 1 <= s <= start && end <= e <= U64_MAX
      invariant forall i :: 0 <= i < idx ==> v[i].1 + 1 < s
      invariant forall i :: idx <= i < j ==> s <= v[i].0 && v[i].1 <= e
      invariant s == start || (idx < j && s == v[idx].0)
      invariant e == end || (idx < j && e == v[j - 1].1)
      invariant forall x {:trigger Covers(v, x)} :: s <= x <= e ==> Covers(v, x) || start <= x <= end
      decreases |v| - j
    {
      assert v[j].1 >= start - 1 by {
        if j > idx {
          assert v[idx].1 + 1 < v[j].0;
        }
      }
      forall x | (if s < v[j].0 then s else v[j].0) <= x <= (if e > v[j].1 then e else v[j].1)
        ensures Covers(v, x) || start <= x <= end
      {
        if v[j].0 <= x <= v[j].1 {
          assert Covers(v, x);
        } else if s <= x <= e {
          assert Covers(v, x) || start <= x <= end;
        }
      }
      s := if s < v[j].0 then s else v[j].0;
      e := if e > v[j].1 then e else v[j].1;
      j := j + 1;
    }
  }

  /** The list after an insertion: one interval in the place of those it swallowed. */
  method Insert(v: seq<Range>, start: nat, end: nat) returns (r: seq<Range>)
    requires Canonical(v) && 1 <= start <= end <= U64_MAX
    ensures Canonical(r) && r != []
    ensures forall x: nat :: Covers(r, x) <==> Covers(v, x) || start <= x <= end
  {
    var idx := FirstReaching(v, start, true);
    var s, e, j := Swallow(v, idx, start, end);
    r := v[..idx] + [(s, e)] + v[j..];
    forall x: nat ensures Covers(r, x) <==> Covers(v, x) || start <= x <= end {
      Spliced(v, idx, j, s, e, start, end, x);
    }
  }

  lemma Spliced(v: seq<Range>, idx: nat, j: nat, s: nat, e: nat, start: nat, end: nat, x: nat)
    requires idx <= j <= |v| && s <= start && end <= e
    requires forall i :: idx <= i < j ==> s <= v[i].0 && v[i].1 <= e
    requires s <= x <= e ==> Covers(v, x) || start <= x <= end
    ensures Covers(v[..idx] + [(s, e)] + v[j..], x) <==> Covers(v, x) || start <= x <= end
  {
    var r := v[..idx] + [(s, e)] + v[j..];
    assert r[idx] == (s, e);
    if Covers(r, x) {
      var i :| 0 <= i < |r| && r[i].0 <= x <= r[i].1;
      if i < idx {
        assert v[i] == r[i];
      } else if i > idx {
        assert v[j + i - idx - 1] == r[i];
      }
    }
    if Covers(v, x) {
      var i :| 0 <= i < |v| && v[i].0 <= x <= v[i].1;
      if i < idx {
        assert r[i] == v[i];
      } else if i >= j {
        assert r[idx + 1 + i - j] == v[i];
      }
    }
  }

  /** The interval that would contain `x`, if any does. */
  lemma Found(v: seq<Range>, x: nat)
    requires Canonical(v)
    ensures var idx := FirstReaching(v, x, false);
      Covers(v, x) <==> idx < |v| && v[idx].0 <= x
  {
    var idx := FirstReaching(v, x, false);
    if Covers(v, x) {
      var i :| 0 <= i < |v| && v[i].0 <= x <= v[i].1;
      assert idx <= i;
    }
  }

  /** The test of one interval against another list: it lies in one interval of that list. */
  predicate Within(o: seq<Range>, r: Range) {
    var idx := FirstReaching(o, r.0, false);
    idx < |o| && o[idx].0 <= r.0 && o[idx].1 >= r.1
  }

  /** Because of the gaps, an interval is covered only if a single interval covers it; when the test
      fails, some number of the interval is not covered. */
  lemma WithinIsCovered(o: seq<Range>, r: Range) returns (missing: nat)
    requires Canonical(o) && r.0 <= r.1
    ensures Within(o, r) ==> forall x :: r.0 <= x <= r.1 ==> Covers(o, x)
    ensures !Within(o, r) ==> r.0 <= missing <= r.1 && !Covers(o, missing)
  {
    var idx := FirstReaching(o, r.0, false);
    missing := r.0;
    Found(o, r.0);
    if idx < |o| && o[idx].0 <= r.0 && o[idx].1 < r.1 {
      missing := o[idx].1 + 1;
      Found(o, missing);
    }
  }

  ghost predicate CoversAll(o: seq<Range>, v: seq<Range>) {
    forall x :: Covers(v, x) ==> Covers(o, x)
  }

  lemma AllWithin(o: seq<Range>, v: seq<Range>)
    requires Canonical(o) && Canonical(v)
    ensures CoversAll(o, v) <==> forall i :: 0 <= i < |v| ==> Within(o, v[i])
  {
    forall i | 0 <= i < |v| && !Within(o, v[i]) ensures !CoversAll(o, v) {
      var x := WithinIsCovered(o, v[i]);
      assert Covers(v, x);
    }
    forall x, i | 0 <= i < |v| && v[i].0 <= x <= v[i].1 && Within(o, v[i]) ensures Covers(o, x) {
      var _ := WithinIsCovered(o, v[i]);
    }
  }

  /** The first interval starts at the least covered number and ends before the first gap. */
  lemma HeadIsDetermined(a: seq<Range>, b: seq<Range>)
    requires Canonical(a) && Canonical(b) && a != [] && CoversAll(a, b) && CoversAll(b, a)
    ensures b != [] && a[0] == b[0]
  {
    assert Covers(a, a[0].0) && Covers(b, a[0].0);
    assert Covers(b, b[0].0) && Covers(a, b[0].0);
    if a[0].1 < b[0].1 {
      assert Covers(b, a[0].1 + 1);
      Found(a, a[0].1 + 1);
    }
    if b[0].1 < a[0].1 {
      assert Covers(a, b[0].1 + 1);
      Found(b, b[0].1 + 1);
    }
  }

  lemma TailCovers(v: seq<Range>, x: nat)
    requires Canonical(v) && v != []
    ensures Covers(v[1..], x) <==> Covers(v, x) && x > v[0].1
  {
    if Covers(v, x) && x > v[0].1 {
      var i :| 0 <= i < |v| && v[i].0 <= x <= v[i].1;
      assert v[1..][i - 1] == v[i];
    }
    if Covers(v[1..], x) {
      var i :| 0 <= i < |v[1..]| && v[1..][i].0 <= x <= v[1..][i].1;
      assert v[i + 1] == v[1..][i];
    }
  }

  /** Equal sets have equal representations. */
  lemma {:induction false} CanonicalIsUnique(a: seq<Range>, b: seq<Range>)
    requires Canonical(a) && Canonical(b) && CoversAll(a, b) && CoversAll(b, a)
    ensures a == b
  {
    if a != [] {
      HeadIsDetermined(a, b);
      forall x ensures Covers(a[1..], x) <==> Covers(b[1..], x) {
        TailCovers(a, x);
        TailCovers(b, x);
      }
      CanonicalIsUnique(a[1..], b[1..]);
    } else if b != [] {
      assert Covers(b, b[0].0);
    }
  }

  /** The check of a decoded list, interval by interval. */
  method CheckList(v: seq<Range>) returns (ok: bool)
    requires forall i :: 0 <= i < |v| ==> v[i].0 <= U64_MAX && v[i].1 <= U64_MAX
    ensures ok <==> Canonical(v)
  {
    var prev: Option<Range> := None;
    for i := 0 to |v|
      invariant prev == if i == 0 then None else Some(v[i - 1])
      invariant Canonical(v[..i])
    {
      var (s, e) := v[i];
      if s == 0 || s > e {
        return false;
      }
      if prev.Some? && s <= SaturatingSucc(prev.value.1) {
        assert v[i - 1].1 + 1 >= v[i].0;
        return false;
      }
      assert forall k :: 0 <= k < i ==> v[..i][k] == v[k];
      assert forall k :: 0 <= k < i - 1 ==> v[..i][k].1 + 1 < v[..i][i - 1].0;
      prev := Some(v[i]);
    }
    assert v[..|v|] == v;
    ok := true;
  }

  // ---------- all epochs ----------

  ghost predicate Has(m: Epochs, epoch: nat, x: nat) {
    epoch in m && Covers(m[epoch], x)
  }

  ghost predicate AllCanonical(m: Epochs) {
    forall epoch :: epoch in m ==> Canonical(m[epoch])
  }

  ghost predicate Included(m: Epochs, other: Epochs) {
    forall epoch, x :: Has(m, epoch, x) ==> Has(other, epoch, x)
  }

  /** An epoch with an empty list, absent from the other side: here the test stops and answers yes. */
  predicate StopsAt(m: Epochs, other: Epochs, epoch: nat) {
    epoch in m && m[epoch] == [] && epoch !in other
  }

  ghost predicate EpochIncluded(m: Epochs, other: Epochs, epoch: nat) {
    forall x :: Has(m, epoch, x) ==> Has(other, epoch, x)
  }

  /** What the test answers: inclusion of every epoch before the one where it stops. */
  ghost predicate IncludedUpToStop(m: Epochs, other: Epochs) {
    forall epoch :: epoch in m && (forall p :: StopsAt(m, other, p) ==> epoch < p) ==>
      EpochIncluded(m, other, epoch)
  }

  /** Without empty lists there is nowhere to stop, and the answer is set inclusion. */
  lemma SubsetIsInclusion(m: Epochs, other: Epochs)
    requires forall epoch :: epoch in m ==> m[epoch] != []
    ensures IncludedUpToStop(m, other) <==> Included(m, other)
  {
    if IncludedUpToStop(m, other) {
      forall epoch, x | Has(m, epoch, x) ensures Has(other, epoch, x) {
        assert EpochIncluded(m, other, epoch);
      }
    }
    if Included(m, other) {
      forall epoch | epoch in m ensures EpochIncluded(m, other, epoch) {
      }
    }
  }

  /** The answer differs from inclusion exactly when something is missing, but only at or behind a stop. */
  lemma WrongAnswer(m: Epochs, other: Epochs)
    ensures (IncludedUpToStop(m, other) && !Included(m, other)) <==>
      && (exists epoch :: epoch in m && !EpochIncluded(m, other, epoch))
      && forall epoch :: epoch in m && !EpochIncluded(m, other, epoch) ==>
          exists p :: StopsAt(m, other, p) && p < epoch
    ensures Included(m, other) ==> IncludedUpToStop(m, other)
  {
    if Included(m, other) {
      forall epoch | epoch in m ensures EpochIncluded(m, other, epoch) {
      }
    } else {
      var epoch, x :| Has(m, epoch, x) && !Has(other, epoch, x);
      assert !EpochIncluded(m, other, epoch);
    }
    forall epoch: nat, p: nat | epoch in m && !EpochIncluded(m, other, epoch) && StopsAt(m, other, p) && p >= epoch
      ensures p > epoch
    {
      if p == epoch {
        StopIncludes(m, other, p);
      }
    }
  }

  /** `{1: [], 2: [1, 1]}` is reported to be a subset of the empty set. */
  lemma EmptyListHidesDivergence()
    ensures var m: Epochs := map[1 := [], 2 := [(1, 1)]];
      AllCanonical(m) && IncludedUpToStop(m, map[]) && !Included(m, map[])
  {
    var m: Epochs := map[1 := [], 2 := [(1, 1)]];
    assert Covers(m[2], 1) && Has(m, 2, 1);
    assert StopsAt(m, map[], 1);
  }

  /** The whole set is determined by its members, up to epochs with empty lists. */
  lemma SetIsUnique(m: Epochs, other: Epochs)
    requires AllCanonical(m) && AllCanonical(other) && Included(m, other) && Included(other, m)
    requires forall epoch :: epoch in m ==> m[epoch] != []
    requires forall epoch :: epoch in other ==> other[epoch] != []
    ensures m == other
  {
    forall epoch ensures epoch in m <==> epoch in other {
      if epoch in m {
        assert Covers(m[epoch], m[epoch][0].0);
        assert Has(m, epoch, m[epoch][0].0);
      }
      if epoch in other {
        assert Covers(other[epoch], other[epoch][0].0);
        assert Has(other, epoch, other[epoch][0].0);
      }
    }
    forall epoch | epoch in m ensures m[epoch] == other[epoch] {
      forall x ensures Covers(m[epoch], x) <==> Covers(other[epoch], x) {
        assert Has(m, epoch, x) <==> Covers(m[epoch], x);
        assert Has(other, epoch, x) <==> Covers(other[epoch], x);
      }
      CanonicalIsUnique(m[epoch], other[epoch]);
    }
  }

  lemma {:induction false} LeastExists(s: set<nat>)
    requires s != {}
    ensures exists x :: x in s && forall y :: y in s ==> x <= y
  {
    var x := LeastOf(s);
  }

  lemma {:induction false} LeastOf(s: set<nat>) returns (x: nat)
    requires s != {}
    ensures x in s && forall y :: y in s ==> x <= y
    decreases |s|
  {
    x :| x in s;
    var rest := s - {x};
    if rest != {} {
      var y := LeastOf(rest);
      forall z | z in s ensures z == x || y <= z {
        assert z == x || z in rest;
      }
      x := if x < y then x else y;
    } else {
      assert s == {x};
    }
  }

  method Least(s: set<nat>) returns (x: nat)
    requires s != {}
    ensures x in s && forall y :: y in s ==> x <= y
  {
    LeastExists(s);
    x :| x in s && forall y :: y in s ==> x <= y;
  }

  class GtidSet {
    var ranges: Epochs

    ghost predicate Valid()
      reads this
    {
      AllCanonical(ranges)
    }

    ghost predicate NoEmptyLists()
      reads this
    {
      forall epoch :: epoch in ranges ==> ranges[epoch] != []
    }

    constructor ()
      ensures Valid() && NoEmptyLists() && forall epoch, x :: !Has(ranges, epoch, x)
    {
      ranges := map[];
    }

    method InsertRange(epoch: nat, start: nat, end: nat)
      requires Valid() && 1 <= start <= end <= U64_MAX
      modifies this
      ensures Valid()
      ensures old(NoEmptyLists()) ==> NoEmptyLists()
      ensures forall p: nat, x: nat :: Has(ranges, p, x) <==> Has(old(ranges), p, x) || (p == epoch && start <= x <= end)
    {
      var v := if epoch in ranges then ranges[epoch] else [];
      var r := Insert(v, start, end);
      ranges := ranges[epoch := r];
      assert forall x :: Has(ranges, epoch, x) <==> Covers(r, x);
      assert forall x :: Has(old(ranges), epoch, x) <==> Covers(v, x);
    }

    method Contains(epoch: nat, x: nat) returns (r: bool)
      requires Valid()
      ensures r <==> Has(ranges, epoch, x)
    {
      if epoch !in ranges {
        return false;
      }
      var v := ranges[epoch];
      var idx := FirstReaching(v, x, false);
      Found(v, x);
      r := idx < |v| && v[idx].0 <= x;
    }

    /** The inner loop of the subset test. */
    static method ListWithin(v: seq<Range>, o: seq<Range>) returns (r: bool)
      requires Canonical(v) && Canonical(o)
      ensures r <==> CoversAll(o, v)
    {
      AllWithin(o, v);
      for i := 0 to |v|
        invariant forall k :: 0 <= k < i ==> Within(o, v[k])
      {
        var idx := FirstReaching(o, v[i].0, false);
        if idx >= |o| || o[idx].0 > v[i].0 || o[idx].1 < v[i].1 {
          assert !Within(o, v[i]);
          return false;
        }
      }
      r := true;
    }

    /** One round of the subset test: an answer, or go on. */
    static method Visit(m: Epochs, other: Epochs, epoch: nat) returns (answer: Option<bool>)
      requires AllCanonical(m) && AllCanonical(other) && epoch in m
      ensures answer == Some(true) <==> StopsAt(m, other, epoch)
      ensures answer == Some(false) <==> !EpochIncluded(m, other, epoch)
    {
      if epoch !in other {
        Absent(m, other, epoch);
        return Some(m[epoch] == []);
      }
      var within := ListWithin(m[epoch], other[epoch]);
      EpochWithin(m, other, epoch);
      answer := if within then None else Some(false);
    }

    /** Epochs are visited in ascending order. */
    method IsSubset(other: GtidSet) returns (r: bool)
      requires Valid() && other.Valid()
      ensures r <==> IncludedUpToStop(ranges, other.ranges)
    {
      var m, o := ranges, other.ranges;
      var todo := m.Keys;
      ghost var done: set<nat> := {};
      while todo != {}
        invariant Visited(m, o, todo, done)
        decreases |todo|
      {
        var epoch := Least(todo);
        var answer := Visit(m, o, epoch);
        if answer.Some? {
          AnswerIsRight(m, o, todo, done, epoch, answer.value);
          return answer.value;
        }
        NoAnswer(m, o, todo, done, epoch);
        todo, done := todo - {epoch}, done + {epoch};
      }
      AllVisited(m, o, done);
      r := true;
    }
  }

  /** The epochs visited so far come before the rest, and none of them settled the answer. */
  ghost predicate Visited(m: Epochs, other: Epochs, todo: set<nat>, done: set<nat>) {
    && m.Keys == todo + done
    && (forall p, q :: p in todo && q in done ==> q < p)
    && (forall p :: p in done ==> !StopsAt(m, other, p))
    && (forall p :: p in done ==> EpochIncluded(m, other, p))
  }

  lemma NoAnswer(m: Epochs, other: Epochs, todo: set<nat>, done: set<nat>, epoch: nat)
    requires Visited(m, other, todo, done) && epoch in todo
    requires forall y :: y in todo ==> epoch <= y
    requires !StopsAt(m, other, epoch) && EpochIncluded(m, other, epoch)
    ensures Visited(m, other, todo - {epoch}, done + {epoch})
  {
  }

  lemma AllVisited(m: Epochs, other: Epochs, done: set<nat>)
    requires Visited(m, other, {}, done)
    ensures IncludedUpToStop(m, other)
  {
  }

  lemma AnswerIsRight(m: Epochs, other: Epochs, todo: set<nat>, done: set<nat>, epoch: nat, answer: bool)
    requires Visited(m, other, todo, done) && epoch in todo
    requires forall y :: y in todo ==> epoch <= y
    requires if answer then StopsAt(m, other, epoch) else !EpochIncluded(m, other, epoch)
    ensures answer <==> IncludedUpToStop(m, other)
  {
    if answer {
      forall p | p in m && (forall q :: StopsAt(m, other, q) ==> p < q) ensures EpochIncluded(m, other, p) {
        assert p in done;
      }
    } else {
      forall q | StopsAt(m, other, q) ensures epoch < q {
        assert q in todo;
        StopIncludes(m, other, q);
      }
    }
  }

  lemma StopIncludes(m: Epochs, other: Epochs, epoch: nat)
    requires StopsAt(m, other, epoch)
    ensures EpochIncluded(m, other, epoch)
  {
  }

  lemma EpochWithin(m: Epochs, other: Epochs, epoch: nat)
    requires epoch in m && epoch in other
    ensures EpochIncluded(m, other, epoch) <==> CoversAll(other[epoch], m[epoch])
  {
    forall x ensures (Has(m, epoch, x) <==> Covers(m[epoch], x)) && (Has(other, epoch, x) <==> Covers(other[epoch], x)) {
    }
  }

  /** The other side lacks the epoch. */
  lemma Absent(m: Epochs, other: Epochs, epoch: nat)
    requires AllCanonical(m) && epoch in m && epoch !in other
    ensures m[epoch] == [] <==> StopsAt(m, other, epoch)
    ensures m[epoch] != [] <==> !EpochIncluded(m, other, epoch)
  {
    if m[epoch] != [] {
      assert Covers(m[epoch], m[epoch][0].0);
      assert Has(m, epoch, m[epoch][0].0);
    }
  }
}
