/** Rolling a draft back on a ledger that others have changed since: what the undo loops compute there,
    and exactly when the result agrees with a list of objects. */
module Undoing {
  import opened Ledgers
  import opened Rollbacks
  import opened Holdings
  import opened Runs

  /** What a rollback gives back to an extent, less what it takes from it. */
  function Owed(d: Staged, e: nat): int {
    SumFor(d.liveDec, e) - SumFor(d.liveInc, e)
  }

  function RefsOwed(d: Staged, e: nat): int {
    Count(d.refcountDec, e) - Count(d.refcountInc, e)
  }

  /** The share entry that a rollback leaves. */
  function EntryBack(s: Ledger, d: Staged, k: Seg): nat {
    UndoneEntry(Entry(s.shared, k), Count(d.sharedInc, k), Count(d.sharedDec, k))
  }

  lemma ShiftBoth(x: nat, up: nat, down: nat)
    ensures Shift(Shift(x, up, true), down, false) == (x + up - down) % U32
  {
    ModShift(x + up, -(down as int));
  }

  lemma Sums(x: nat, up: nat, down: nat, owed: int, z: int)
    requires owed == up - down && z == Shift(Shift(x, up, true), down, false)
    ensures z == (x + owed) % U32
  {
    ShiftBoth(x, up, down);
    assert x + owed == x + up - down;
  }

  lemma LiveShifts(live: seq<nat>, d: Staged, e: nat) returns (z: nat)
    requires KeysBelow(d.liveDec, |live|) && KeysBelow(d.liveInc, |live|) && e < |live|
    requires forall x :: 0 <= x < |live| ==> live[x] < U32
    ensures z == ShiftLive(ShiftLive(live, d.liveDec, true), d.liveInc, false)[e] && z == (live[e] + Owed(d, e)) % U32
  {
    var once := ShiftLive(live, d.liveDec, true);
    ShiftLiveAt(live, d.liveDec, true, e);
    ShiftLiveAt(once, d.liveInc, false, e);
    z := ShiftLive(once, d.liveInc, false)[e];
    Sums(live[e], SumFor(d.liveDec, e), SumFor(d.liveInc, e), Owed(d, e), z);
  }

  lemma RefShifts(refs: seq<nat>, d: Staged, e: nat) returns (z: nat)
    requires Below(d.refcountDec, |refs|) && Below(d.refcountInc, |refs|) && e < |refs|
    requires forall x :: 0 <= x < |refs| ==> refs[x] < U32
    ensures z == ShiftRefs(ShiftRefs(refs, d.refcountDec, true), d.refcountInc, false)[e] && z == (refs[e] + RefsOwed(d, e)) % U32
  {
    var once := ShiftRefs(refs, d.refcountDec, true);
    ShiftRefsAt(refs, d.refcountDec, true, e);
    ShiftRefsAt(once, d.refcountInc, false, e);
    z := ShiftRefs(once, d.refcountInc, false)[e];
    Sums(refs[e], Count(d.refcountDec, e), Count(d.refcountInc, e), RefsOwed(d, e), z);
  }

  lemma RollbackCounters(s: Ledger, d: Staged, e: nat)
    requires WellFormed(s) && DraftInRange(s, d) && e < |s.bits|
    ensures var r := Rollback(s, d);
      && r.live[e] == (s.live[e] + Owed(d, e)) % U32
      && r.refcounts[e] == (s.refcounts[e] + RefsOwed(d, e)) % U32
  {
    UnclearAt(s, d.cleared);
    UnallocateAt(Unclear(s, d.cleared), Ids(d));
    var live := LiveShifts(s.live, d, e);
    var refs := RefShifts(s.refcounts, d, e);
  }

  lemma RollbackShape(s: Ledger, d: Staged)
    requires WellFormed(s) && DraftInRange(s, d)
    ensures var r := Rollback(s, d);
      && r.pins == s.pins && r.isolated == s.isolated
      && (forall e :: 0 <= e < |s.bits| ==> r.bits[e] == ((s.bits[e] || e in d.cleared) && e !in Ids(d)))
      && forall k :: Entry(r.shared, k) == EntryBack(s, d, k)
  {
    UnclearAt(s, d.cleared);
    UnallocateAt(Unclear(s, d.cleared), Ids(d));
    forall k ensures Entry(Rollback(s, d).shared, k) == EntryBack(s, d, k) {
      UndoShareAt(s.shared, d.sharedInc, d.sharedDec, k);
    }
  }

  /** The 32-bit counter that holds `x` reads `b`. */
  ghost predicate Wraps(x: int, b: nat) {
    x % U32 == b
  }

  // ---------- when the books balance again ----------

  /** The extent's live bytes, with what the draft took given back and what it counted taken off, are
      those of the objects and notes. */
  ghost predicate BytesBack(s: Ledger, d: Staged, objs: seq<Object>, noted: seq<(nat, nat)>, e: nat)
    requires WellFormed(s) && e < |s.bits|
  {
    Wraps(s.live[e] + Owed(d, e), Bytes(Keys(objs), e) + SumFor(noted, e))
  }

  /** If anything lies in the extent, the draft has not allocated it, and it is allocated still or was
      emptied by the draft itself. */
  ghost predicate BitBack(s: Ledger, d: Staged, objs: seq<Object>, noted: seq<(nat, nat)>, e: nat)
    requires WellFormed(s) && e < |s.bits|
  {
    Bytes(Keys(objs), e) + SumFor(noted, e) > 0 ==> e !in Ids(d) && (s.bits[e] || e in d.cleared)
  }

  /** The entry, the draft's own shares and releases, and the holders fit together. An entry that the undo
      of the shares drops comes back as the number of releases; any other moves by both numbers. */
  ghost predicate ShareBack(s: Ledger, d: Staged, objs: seq<Object>, k: Seg) {
    var entry, holders := Entry(s.shared, k), Holders(objs, k);
    var shares, releases := Count(d.sharedInc, k), Count(d.sharedDec, k);
    if entry == 0 || (shares > 0 && entry < shares + 2) then
      if releases == 0 then holders <= 1 else holders == releases
    else holders == entry - shares + releases
  }

  lemma ShareBackIff(s: Ledger, d: Staged, objs: seq<Object>, k: Seg)
    ensures ShareBack(s, d, objs, k) <==>
      var n := EntryBack(s, d, k); if n > 0 then n == Holders(objs, k) else Holders(objs, k) <= 1
  {
  }

  ghost predicate Balanced(s: Ledger, d: Staged, objs: seq<Object>, noted: seq<(nat, nat)>) {
    && WellFormed(s) && ObjectsOk(|s.bits|, objs)
    && (forall e :: 0 <= e < |s.bits| ==> BytesBack(s, d, objs, noted, e) && BitBack(s, d, objs, noted, e))
    && forall k :: ShareBack(s, d, objs, k)
  }

  /** A rollback leaves a ledger that accounts for the objects if and only if the draft's own record
      says so beforehand, extent by extent and segment by segment. */
  lemma BalancedIff(s: Ledger, d: Staged, objs: seq<Object>, noted: seq<(nat, nat)>)
    requires WellFormed(s) && DraftInRange(s, d)
    ensures SpaceAccounts(Rollback(s, d), objs, noted) <==> Balanced(s, d, objs, noted)
  {
    var r := Rollback(s, d);
    RollbackShape(s, d);
    forall e | 0 <= e < |s.bits|
      ensures LiveAccounts(r, objs, noted, e) <==> BytesBack(s, d, objs, noted, e) && BitBack(s, d, objs, noted, e)
    {
      RollbackCounters(s, d, e);
    }
    forall k ensures KeyAccounts(r, objs, k) <==> ShareBack(s, d, objs, k) {
      assert Entry(r.shared, k) == EntryBack(s, d, k);
      ShareBackIff(s, d, objs, k);
    }
  }

  lemma BalancedAt(s: Ledger, d: Staged, objs: seq<Object>, noted: seq<(nat, nat)>, e: nat)
    requires Balanced(s, d, objs, noted) && e < |s.bits|
    ensures BytesBack(s, d, objs, noted, e) && BitBack(s, d, objs, noted, e)
  {
  }
}
