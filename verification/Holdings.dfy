/** What the live objects say about space: who holds which segment, and how many bytes of each
    extent the distinct held segments take. */
module Holdings {
  import opened Ledgers
  import opened Rollbacks

  /** A live object or upload part; a deleted one is left behind as an empty list. */
  type Object = seq<Seg>

  function Holders(objs: seq<Object>, k: Seg): nat {
    if objs == [] then 0 else Count(objs[0], k) + Holders(objs[1..], k)
  }

  predicate Touches(obj: Object, e: nat) {
    exists i :: 0 <= i < |obj| && obj[i].ext == e
  }

  function Touching(objs: seq<Object>, e: nat): nat {
    if objs == [] then 0 else (if Touches(objs[0], e) then 1 else 0) + Touching(objs[1..], e)
  }

  function Keys(objs: seq<Object>): set<Seg> {
    set o, k | o in objs && k in o :: k
  }

  function Weight(k: Seg, e: nat): nat {
    if k.ext == e then k.len else 0
  }

  /** The bytes that a set of segments takes on extent `e`. */
  ghost function Bytes(ks: set<Seg>, e: nat): nat {
    if ks == {} then 0 else
      var k :| k in ks;
      Weight(k, e) + Bytes(ks - {k}, e)
  }

  function SegSum(segs: seq<Seg>, e: nat): nat {
    if segs == [] then 0 else Weight(segs[0], e) + SegSum(segs[1..], e)
  }

  lemma {:induction false} BytesRemove(ks: set<Seg>, k: Seg, e: nat)
    requires k in ks
    ensures Bytes(ks, e) == Weight(k, e) + Bytes(ks - {k}, e)
    decreases ks
  {
    var c :| c in ks && Bytes(ks, e) == Weight(c, e) + Bytes(ks - {c}, e);
    if c != k {
      BytesRemove(ks - {c}, k, e);
      BytesRemove(ks - {k}, c, e);
      assert ks - {c} - {k} == ks - {k} - {c};
    }
  }

  lemma BytesInsert(ks: set<Seg>, k: Seg, e: nat)
    requires k !in ks
    ensures Bytes(ks + {k}, e) == Weight(k, e) + Bytes(ks, e)
  {
    BytesRemove(ks + {k}, k, e);
    assert ks + {k} - {k} == ks;
  }

  lemma {:induction false} BytesAddAll(ks: set<Seg>, segs: seq<Seg>, e: nat)
    requires Distinct(segs) && forall i :: 0 <= i < |segs| ==> segs[i] !in ks
    ensures Bytes(ks + (set k | k in segs), e) == Bytes(ks, e) + SegSum(segs, e)
    decreases |segs|
  {
    if segs == [] {
      assert ks + (set k | k in segs) == ks;
    } else {
      BytesInsert(ks, segs[0], e);
      BytesAddAll(ks + {segs[0]}, segs[1..], e);
      assert ks + {segs[0]} + (set k | k in segs[1..]) == ks + (set k | k in segs);
    }
  }

  lemma {:induction false} BytesUnion(a: set<Seg>, b: set<Seg>, e: nat)
    requires a !! b
    ensures Bytes(a + b, e) == Bytes(a, e) + Bytes(b, e)
    decreases b
  {
    if b == {} {
      assert a + b == a;
    } else {
      var k :| k in b;
      BytesUnion(a, b - {k}, e);
      BytesRemove(b, k, e);
      BytesRemove(a + b, k, e);
      assert a + b - {k} == a + (b - {k});
    }
  }

  /** An extent without held bytes has no held segment, because segments are never empty. */
  lemma NoBytesNoKey(ks: set<Seg>, e: nat)
    requires forall k :: k in ks ==> k.len > 0
    ensures Bytes(ks, e) == 0 <==> forall k :: k in ks ==> k.ext != e
  {
    if Bytes(ks, e) == 0 {
      forall k | k in ks ensures k.ext != e { BytesRemove(ks, k, e); }
    } else {
      NoKeyNoBytes(ks, e);
    }
  }

  lemma {:induction false} NoKeyNoBytes(ks: set<Seg>, e: nat)
    ensures (forall k :: k in ks ==> k.ext != e) ==> Bytes(ks, e) == 0
    decreases ks
  {
    if ks != {} {
      var k :| k in ks;
      BytesRemove(ks, k, e);
      NoKeyNoBytes(ks - {k}, e);
    }
  }

  // ---------- lists of objects ----------

  lemma {:induction false} HeldIffKey(objs: seq<Object>, k: Seg)
    ensures k in Keys(objs) <==> Holders(objs, k) > 0
  {
    if objs != [] {
      HeldIffKey(objs[1..], k);
      CountPositive(objs[0], k);
      assert k in Keys(objs) <==> k in objs[0] || k in Keys(objs[1..]);
    }
  }

  lemma {:induction false} HoldersAppend(objs: seq<Object>, obj: Object, k: Seg)
    ensures Holders(objs + [obj], k) == Holders(objs, k) + Count(obj, k)
  {
    if objs == [] {
      assert (objs + [obj])[1..] == [];
    } else {
      assert (objs + [obj])[1..] == objs[1..] + [obj];
      HoldersAppend(objs[1..], obj, k);
    }
  }

  lemma {:induction false} HoldersUpdate(objs: seq<Object>, i: nat, obj: Object, k: Seg)
    requires i < |objs|
    ensures Holders(objs[i := obj], k) == Holders(objs, k) - Count(objs[i], k) + Count(obj, k)
    ensures Holders(objs, k) >= Count(objs[i], k)
  {
    if i == 0 {
      assert objs[i := obj][1..] == objs[1..];
    } else {
      assert objs[i := obj][1..] == objs[1..][i - 1 := obj];
      HoldersUpdate(objs[1..], i - 1, obj, k);
    }
  }

  lemma {:induction false} TouchingAppend(objs: seq<Object>, obj: Object, e: nat)
    ensures Touching(objs + [obj], e) == Touching(objs, e) + (if Touches(obj, e) then 1 else 0)
  {
    if objs == [] {
      assert (objs + [obj])[1..] == [];
    } else {
      assert (objs + [obj])[1..] == objs[1..] + [obj];
      TouchingAppend(objs[1..], obj, e);
    }
  }

  lemma {:induction false} TouchingUpdate(objs: seq<Object>, i: nat, obj: Object, e: nat)
    requires i < |objs|
    ensures Touching(objs[i := obj], e) ==
      Touching(objs, e) - (if Touches(objs[i], e) then 1 else 0) + (if Touches(obj, e) then 1 else 0)
    ensures Touches(objs[i], e) ==> Touching(objs, e) > 0
  {
    if i == 0 {
      assert objs[i := obj][1..] == objs[1..];
    } else {
      assert objs[i := obj][1..] == objs[1..][i - 1 := obj];
      TouchingUpdate(objs[1..], i - 1, obj, e);
    }
  }

  lemma {:induction false} TouchedHasKey(objs: seq<Object>, e: nat)
    ensures Touching(objs, e) > 0 <==> exists k :: k in Keys(objs) && k.ext == e
  {
    if objs != [] {
      TouchedHasKey(objs[1..], e);
      forall k ensures k in Keys(objs) <==> k in objs[0] || k in Keys(objs[1..]) {}
      if Touches(objs[0], e) {
        var i :| 0 <= i < |objs[0]| && objs[0][i].ext == e;
        assert objs[0][i] in Keys(objs);
      }
      if exists k :: k in Keys(objs) && k.ext == e {
        var k :| k in Keys(objs) && k.ext == e;
        if k in objs[0] {
          assert exists i :: 0 <= i < |objs[0]| && objs[0][i] == k;
        }
      }
    }
  }

  lemma {:induction false} DistinctCount(obj: Object, k: Seg)
    requires Distinct(obj)
    ensures Count(obj, k) == if k in obj then 1 else 0
  {
    if obj != [] {
      DistinctCount(obj[1..], k);
      if k == obj[0] {
        CountPositive(obj[1..], k);
      }
    }
  }
}
