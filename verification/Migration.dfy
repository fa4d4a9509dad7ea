/** The metadata transaction of a compaction switch: an object that still refers to all the planned
    segments gets their copies instead. */
module Migrations {
  import opened Words
  import opened Compactions
  import L = Ledgers
  import R = Runs
  import C = CompactionLedgers

  function Listed(o: Object): seq<Segment> {
    o.extents + o.restored
  }

  /** The allocator knows a segment by extent, offset and length. */
  function Key(s: Segment): L.Seg {
    L.Seg(s.ext, s.off, s.len)
  }

  function KeysOf(segs: seq<Segment>): (r: seq<L.Seg>)
    ensures |r| == |segs| && forall i :: 0 <= i < |r| ==> r[i] == Key(segs[i])
  {
    seq(|segs|, i requires 0 <= i < |segs| => Key(segs[i]))
  }

  function IndexOf(segs: seq<Segment>, s: Segment): (i: nat)
    requires s in segs
    ensures i < |segs| && segs[i] == s && s !in segs[..i]
  {
    if segs[0] == s then 0 else 1 + IndexOf(segs[1..], s)
  }

  /** Every segment that is among `gone` is replaced by its counterpart. */
  function Remap(segs: seq<Segment>, gone: seq<Segment>, copies: seq<Segment>): (r: seq<Segment>)
    requires |gone| == |copies|
    ensures |r| == |segs|
    ensures forall i :: 0 <= i < |r| ==> r[i] == if segs[i] in gone then copies[IndexOf(gone, segs[i])] else segs[i]
  {
    seq(|segs|, i requires 0 <= i < |segs| => if segs[i] in gone then copies[IndexOf(gone, segs[i])] else segs[i])
  }

  function Hits(segs: seq<Segment>, gone: seq<Segment>): nat {
    if segs == [] then 0 else (if segs[0] in gone then 1 else 0) + Hits(segs[1..], gone)
  }

  /** `ObjectChanged` is `None`: the object does not hold as many of the segments as were planned. */
  function Migrate(o: Object, gone: seq<Segment>, copies: seq<Segment>): Option<Object> {
    if |gone| != |copies| || Hits(o.extents, gone) + Hits(o.restored, gone) != |gone| then None
    else Some(Object(Remap(o.extents, gone, copies), Remap(o.restored, gone, copies)))
  }

  // ---------- an object that passes holds exactly the planned segments ----------

  lemma {:induction false} HitsAppend(a: seq<Segment>, b: seq<Segment>, gone: seq<Segment>)
    ensures Hits(a + b, gone) == Hits(a, gone) + Hits(b, gone)
  {
    if a == [] {
      assert a + b == b;
    } else {
      assert (a + b)[1..] == a[1..] + b;
      HitsAppend(a[1..], b, gone);
    }
  }

  function Among(segs: seq<Segment>, gone: seq<Segment>): set<Segment> {
    set s | s in segs && s in gone
  }

  lemma {:induction false} HitsSize(segs: seq<Segment>, gone: seq<Segment>)
    requires L.Distinct(segs)
    ensures |Among(segs, gone)| == Hits(segs, gone)
  {
    if segs != [] {
      HitsSize(segs[1..], gone);
      assert segs[0] !in segs[1..];
      if segs[0] in gone {
        assert Among(segs, gone) == {segs[0]} + Among(segs[1..], gone);
      } else {
        assert Among(segs, gone) == Among(segs[1..], gone);
      }
    }
  }

  lemma {:induction false} SetSize(segs: seq<Segment>)
    ensures |set s | s in segs| <= |segs|
    ensures |set s | s in segs| == |segs| ==> L.Distinct(segs)
  {
    if segs != [] {
      var all, rest := set s | s in segs, set s | s in segs[1..];
      SetSize(segs[1..]);
      if segs[0] in segs[1..] {
        assert all == rest;
      } else {
        assert all == {segs[0]} + rest;
      }
    }
  }

  lemma SameSize(a: set<Segment>, b: set<Segment>)
    requires a <= b && |a| >= |b|
    ensures a == b
  {
    assert b == a + (b - a);
  }

  lemma AllHit(segs: seq<Segment>, gone: seq<Segment>)
    requires L.Distinct(segs) && Hits(segs, gone) == |gone|
    ensures L.Distinct(gone) && forall s :: s in gone ==> s in segs
  {
    var all := set s | s in gone;
    HitsSize(segs, gone);
    SetSize(gone);
    SameSize(Among(segs, gone), all);
    forall s | s in gone ensures s in segs {
      assert s in all;
    }
  }

  lemma {:induction false} DistinctSize(segs: seq<Segment>)
    requires L.Distinct(segs)
    ensures |set s | s in segs| == |segs|
  {
    if segs != [] {
      var all, rest := set s | s in segs, set s | s in segs[1..];
      DistinctSize(segs[1..]);
      assert all == {segs[0]} + rest;
    }
  }

  lemma NoneMissed(segs: seq<Segment>, gone: seq<Segment>)
    requires L.Distinct(segs) && L.Distinct(gone) && forall s :: s in gone ==> s in segs
    ensures Hits(segs, gone) == |gone|
  {
    HitsSize(segs, gone);
    DistinctSize(gone);
    assert Among(segs, gone) == set s | s in gone;
  }

  lemma DistinctKeys(segs: seq<Segment>)
    requires L.Distinct(KeysOf(segs))
    ensures L.Distinct(segs)
    ensures forall a, b :: a in segs && b in segs && Key(a) == Key(b) ==> a == b
  {
    forall i, j | 0 <= i < j < |segs| ensures segs[i] != segs[j] {
      assert KeysOf(segs)[i] != KeysOf(segs)[j];
    }
    forall a, b | a in segs && b in segs && Key(a) == Key(b) ensures a == b {
      var i :| 0 <= i < |segs| && segs[i] == a;
      var j :| 0 <= j < |segs| && segs[j] == b;
      assert KeysOf(segs)[i] == KeysOf(segs)[j];
    }
  }

  lemma Planned(o: Object, gone: seq<Segment>, copies: seq<Segment>)
    requires L.Distinct(KeysOf(Listed(o))) && Migrate(o, gone, copies).Some?
    ensures L.Distinct(gone) && L.Distinct(KeysOf(gone)) && forall s :: s in gone ==> s in Listed(o)
  {
    HitsAppend(o.extents, o.restored, gone);
    DistinctKeys(Listed(o));
    AllHit(Listed(o), gone);
    forall i, j | 0 <= i < j < |gone| ensures KeysOf(gone)[i] != KeysOf(gone)[j] {
      assert gone[i] in Listed(o) && gone[j] in Listed(o);
    }
  }

  /** The check of a switch passes if and only if there is a copy for each planned segment, none is planned
      twice, and the object still refers to all of them, whatever else it refers to. */
  lemma PassesIff(o: Object, gone: seq<Segment>, copies: seq<Segment>)
    requires L.Distinct(KeysOf(Listed(o)))
    ensures Migrate(o, gone, copies).Some? <==>
      |gone| == |copies| && L.Distinct(gone) && forall s :: s in gone ==> s in Listed(o)
  {
    HitsAppend(o.extents, o.restored, gone);
    DistinctKeys(Listed(o));
    if Migrate(o, gone, copies).Some? {
      Planned(o, gone, copies);
    }
    if L.Distinct(gone) && forall s :: s in gone ==> s in Listed(o) {
      NoneMissed(Listed(o), gone);
    }
  }

  /** What it stores: each planned segment has become its copy, and everything else is where it was. */
  lemma MigratesInPlace(o: Object, gone: seq<Segment>, copies: seq<Segment>)
    requires L.Distinct(KeysOf(Listed(o))) && Migrate(o, gone, copies).Some?
    ensures var o' := Migrate(o, gone, copies).value;
      && |o'.extents| == |o.extents| && |o'.restored| == |o.restored|
      && (forall j :: 0 <= j < |Listed(o)| && Listed(o)[j] !in gone ==> Listed(o')[j] == Listed(o)[j])
      && forall j, x :: 0 <= j < |Listed(o)| && 0 <= x < |gone| && Listed(o)[j] == gone[x] ==> Listed(o')[j] == copies[x]
  {
    Planned(o, gone, copies);
    RemapListed(o, gone, copies);
    forall j, x | 0 <= j < |Listed(o)| && 0 <= x < |gone| && Listed(o)[j] == gone[x]
      ensures Remap(Listed(o), gone, copies)[j] == copies[x]
    {
      assert IndexOf(gone, gone[x]) == x;
    }
  }

  // ---------- what the new list holds ----------

  lemma RemapListed(o: Object, gone: seq<Segment>, copies: seq<Segment>)
    requires Migrate(o, gone, copies).Some?
    ensures Listed(Migrate(o, gone, copies).value) == Remap(Listed(o), gone, copies)
  {
  }

  lemma RemapDistinct(segs: seq<Segment>, gone: seq<Segment>, copies: seq<Segment>)
    requires |gone| == |copies| && L.Distinct(KeysOf(segs)) && L.Distinct(KeysOf(copies))
    requires forall a, b :: a in copies && b in segs ==> Key(a) != Key(b)
    ensures L.Distinct(KeysOf(Remap(segs, gone, copies)))
  {
    var r := Remap(segs, gone, copies);
    forall i, j | 0 <= i < j < |r| ensures Key(r[i]) != Key(r[j]) {
      assert KeysOf(segs)[i] != KeysOf(segs)[j];
      if segs[i] in gone && segs[j] in gone {
        var x, y := IndexOf(gone, segs[i]), IndexOf(gone, segs[j]);
        assert KeysOf(copies)[x] != KeysOf(copies)[y];
      } else if segs[i] in gone {
        assert r[i] in copies && r[j] in segs;
      } else if segs[j] in gone {
        assert r[j] in copies && r[i] in segs;
      }
    }
  }

  lemma RemapMembers(segs: seq<Segment>, gone: seq<Segment>, copies: seq<Segment>, s: Segment)
    requires |gone| == |copies| && L.Distinct(gone) && forall x :: x in gone ==> x in segs
    ensures s in Remap(segs, gone, copies) <==> (s in segs && s !in gone) || s in copies
  {
    var r := Remap(segs, gone, copies);
    if s in r {
      var i :| 0 <= i < |r| && r[i] == s;
      assert segs[i] in segs;
    }
    if s in segs && s !in gone {
      var i :| 0 <= i < |segs| && segs[i] == s;
      assert r[i] == s;
    }
    if s in copies {
      var x :| 0 <= x < |copies| && copies[x] == s;
      assert gone[x] in segs;
      var i :| 0 <= i < |segs| && segs[i] == gone[x];
      assert IndexOf(gone, gone[x]) == x;
      assert r[i] == s;
    }
  }

  lemma RemapApart(segs: seq<Segment>, gone: seq<Segment>, copies: seq<Segment>, x: nat, p: nat)
    requires |gone| == |copies| && L.Distinct(gone) && forall s :: s in gone ==> s in segs
    requires L.Distinct(KeysOf(Remap(segs, gone, copies))) && x < |copies| && p < |segs| && segs[p] !in gone
    ensures Key(copies[x]) != Key(segs[p])
  {
    var r := Remap(segs, gone, copies);
    assert gone[x] in gone;
    var q :| 0 <= q < |segs| && segs[q] == gone[x];
    assert IndexOf(gone, gone[x]) == x;
    assert r[q] == copies[x] && r[p] == segs[p] && p != q;
    assert KeysOf(r)[p] != KeysOf(r)[q];
  }

  /** Where the new list has no segment twice, no copy is in the place of a segment that stays. */
  lemma RemapExclusive(segs: seq<Segment>, gone: seq<Segment>, copies: seq<Segment>, k: L.Seg)
    requires |gone| == |copies| && L.Distinct(gone) && forall s :: s in gone ==> s in segs
    requires L.Distinct(KeysOf(Remap(segs, gone, copies))) && k in KeysOf(segs) && k !in KeysOf(gone)
    ensures k !in KeysOf(copies)
  {
    KeyMembers(gone);
    var p :| 0 <= p < |segs| && KeysOf(segs)[p] == k;
    forall x | 0 <= x < |copies| ensures KeysOf(copies)[x] != k {
      RemapApart(segs, gone, copies, x, p);
    }
  }

  /** What a switch that passes its check changes, in the allocator's terms. */
  lemma MigrateReplaces(n: nat, o: Object, gone: seq<Segment>, copies: seq<Segment>)
    requires R.ObjectOk(n, KeysOf(Listed(o))) && R.ObjectOk(n, KeysOf(copies)) && Migrate(o, gone, copies).Some?
    requires forall a, b :: a in copies && b in Listed(o) ==> Key(a) != Key(b)
    ensures var after := KeysOf(Listed(Migrate(o, gone, copies).value));
      R.ObjectOk(n, after) && C.Replaces(KeysOf(Listed(o)), KeysOf(copies), KeysOf(gone), after)
  {
    var segs, r := Listed(o), Remap(Listed(o), gone, copies);
    Planned(o, gone, copies);
    RemapListed(o, gone, copies);
    RemapDistinct(segs, gone, copies);
    forall s ensures s in r <==> (s in segs && s !in gone) || s in copies {
      RemapMembers(segs, gone, copies, s);
    }
    KeyMembers(segs);
    KeyMembers(gone);
    KeyMembers(copies);
    KeyMembers(r);
    DistinctKeys(segs);
    forall j | 0 <= j < |r| ensures r[j].len > 0 && r[j].ext < n {
      assert r[j] in r;
      assert Key(r[j]) in KeysOf(segs) || Key(r[j]) in KeysOf(copies);
    }
    forall k ensures k in KeysOf(r) <==> (k in KeysOf(segs) && k !in KeysOf(gone)) || k in KeysOf(copies) {
    }
  }

  lemma KeyMembers(segs: seq<Segment>)
    ensures forall k :: k in KeysOf(segs) <==> exists s :: s in segs && Key(s) == k
  {
    forall k ensures k in KeysOf(segs) <==> exists s :: s in segs && Key(s) == k {
      if k in KeysOf(segs) {
        var i :| 0 <= i < |segs| && KeysOf(segs)[i] == k;
        assert segs[i] in segs;
      }
      if exists s :: s in segs && Key(s) == k {
        var s :| s in segs && Key(s) == k;
        var i :| 0 <= i < |segs| && segs[i] == s;
        assert KeysOf(segs)[i] == k;
      }
    }
  }

  // ---------- readers ----------

  /** Where every replaced segment has the bytes of its copy, the object reads the same. */
  lemma RemapReads(disk: Disk, segs: seq<Segment>, gone: seq<Segment>, copies: seq<Segment>)
    requires AllFit(disk, segs) && |gone| == |copies|
    requires forall i :: 0 <= i < |gone| && gone[i] in segs ==>
      Fits(disk, gone[i]) && Fits(disk, copies[i]) && Bytes(disk, gone[i]) == Bytes(disk, copies[i])
    ensures AllFit(disk, Remap(segs, gone, copies)) && Read(disk, Remap(segs, gone, copies)) == Read(disk, segs)
  {
    var r := Remap(segs, gone, copies);
    forall i | 0 <= i < |segs| ensures Fits(disk, r[i]) && Bytes(disk, segs[i]) == Bytes(disk, r[i]) {
      assert segs[i] in segs;
      if segs[i] in gone {
        assert gone[IndexOf(gone, segs[i])] == segs[i];
      }
    }
    ReadsAlike(disk, segs, disk, r);
  }

  /** Lists of segments of the same lengths that differ in the bytes of one segment read differently. */
  lemma {:induction false} ReadsDiffer(disk: Disk, segs: seq<Segment>, disk': Disk, segs': seq<Segment>, i: nat)
    requires AllFit(disk, segs) && AllFit(disk', segs') && |segs| == |segs'| && i < |segs|
    requires forall j :: 0 <= j < |segs| ==> segs[j].len == segs'[j].len
    requires Bytes(disk, segs[i]) != Bytes(disk', segs'[i])
    ensures Read(disk, segs) != Read(disk', segs')
    decreases |segs|
  {
    if i > 0 {
      ReadsDiffer(disk, segs[1..], disk', segs'[1..], i - 1);
    }
    ConcatDiffers(Bytes(disk, segs[0]), Read(disk, segs[1..]), Bytes(disk', segs'[0]), Read(disk', segs'[1..]));
  }

  lemma ConcatDiffers(x: seq<Byte>, a: seq<Byte>, y: seq<Byte>, b: seq<Byte>)
    requires |x| == |y| && (x != y || a != b)
    ensures x + a != y + b
  {
    if x != y {
      var k :| 0 <= k < |x| && x[k] != y[k];
      assert (x + a)[k] != (y + b)[k];
    } else if |a| == |b| {
      var k :| 0 <= k < |a| && a[k] != b[k];
      assert (x + a)[|x| + k] != (y + b)[|x| + k];
    }
  }
}
