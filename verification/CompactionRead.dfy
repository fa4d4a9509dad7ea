/** What readers see while a batch runs: an object keeps its bytes, whatever becomes of the books, under
    conditions on itself and its copies alone. */
module CompactionReads {
  import opened Words
  import opened Compactions
  import opened Migrations
  import opened CompactionRuns
  import opened CompactionSwitches
  import L = Ledgers
  import H = Holdings
  import R = Runs

  /** An object, data and restored copy, reads the same in both. */
  ghost predicate ReadsSame(b: Batch, b': Batch, id: nat) {
    && id < |b.store| && id < |b'.store|
    && AllFit(b.disk, b.store[id].extents) && AllFit(b.disk, b.store[id].restored)
    && AllFit(b'.disk, b'.store[id].extents) && AllFit(b'.disk, b'.store[id].restored)
    && Read(b'.disk, b'.store[id].extents) == Read(b.disk, b.store[id].extents)
    && Read(b'.disk, b'.store[id].restored) == Read(b.disk, b.store[id].restored)
  }

  // ---------- right copies ----------

  ghost predicate Alike(disk: Disk, s: Segment, copy: Segment) {
    Fits(disk, s) && Fits(disk, copy) && Bytes(disk, s) == Bytes(disk, copy)
  }

  /** The copies made of the listed segments have their bytes. */
  ghost predicate ItemRight(disk: Disk, it: Item, segs: seq<Segment>) {
    forall i :: 0 <= i < |it.new_| && i < |it.old_| && it.old_[i] in segs ==> Alike(disk, it.old_[i], it.new_[i])
  }

  ghost predicate PartCopied(b: Batch)
    requires HasCurrent(b)
  {
    && Fits(b.disk, Current(b)) && b.part <= Current(b).len
    && b.eid < |b.disk| && b.wm + b.part <= |b.disk[b.eid]|
    && b.disk[b.eid][b.wm..b.wm + b.part] == Bytes(b.disk, Current(b))[..b.part]
  }

  /** So has the part of the current segment that has been copied. */
  ghost predicate PartRight(b: Batch, segs: seq<Segment>) {
    HasCurrent(b) && Current(b) in segs ==> PartCopied(b)
  }

  ghost predicate Right(b: Batch, segs: seq<Segment>) {
    (forall j :: 0 <= j < |b.items| ==> ItemRight(b.disk, b.items[j], segs)) && PartRight(b, segs)
  }

  /** What has been copied of an object is right, as long as the target is the batch's. */
  ghost predicate Faithful(b: Batch, id: nat) {
    id < |b.store| && (b.ours ==> Right(b, Listed(b.store[id])))
  }

  /** The copies of the next item have the bytes of the planned segments. */
  ghost predicate CopiesRight(b: Batch) {
    && b.next < |b.items| && |b.items[b.next].new_| == |b.items[b.next].old_|
    && forall i :: 0 <= i < |b.items[b.next].old_| ==> Alike(b.disk, b.items[b.next].old_[i], b.items[b.next].new_[i])
  }

  lemma ListedFit(b: Batch, id: nat)
    requires Ranged(b) && id < |b.store|
    ensures forall s :: s in Listed(b.store[id]) ==> Fits(b.disk, s)
    ensures AllFit(b.disk, b.store[id].extents) && AllFit(b.disk, b.store[id].restored)
  {
    RefsOfObject(b.store, id);
    forall s | s in Listed(b.store[id]) ensures Fits(b.disk, s) {
      assert s in Refs(b.store);
    }
    forall i | 0 <= i < |b.store[id].extents| ensures Fits(b.disk, b.store[id].extents[i]) {
      assert b.store[id].extents[i] in Listed(b.store[id]);
    }
    forall i | 0 <= i < |b.store[id].restored| ensures Fits(b.disk, b.store[id].restored[i]) {
      assert b.store[id].restored[i] in Listed(b.store[id]);
    }
  }

  // ---------- steps that leave the disk alone ----------

  /** The segments have the same bytes on both disks. */
  ghost predicate Spared(disk: Disk, disk': Disk, segs: seq<Segment>) {
    forall s :: s in segs ==> Fits(disk, s) && Fits(disk', s) && Bytes(disk', s) == Bytes(disk, s)
  }

  lemma SparedReads(b: Batch, b': Batch, id: nat)
    requires Ranged(b) && id < |b.store| && id < |b'.store| && b'.store[id] == b.store[id]
    requires Spared(b.disk, b'.disk, Listed(b.store[id]))
    ensures ReadsSame(b, b', id)
  {
    ListedFit(b, id);
    var o := b.store[id];
    forall i | 0 <= i < |o.extents| ensures Fits(b'.disk, o.extents[i]) && Bytes(b'.disk, o.extents[i]) == Bytes(b.disk, o.extents[i]) {
      assert o.extents[i] in Listed(o);
    }
    forall i | 0 <= i < |o.restored| ensures Fits(b'.disk, o.restored[i]) && Bytes(b'.disk, o.restored[i]) == Bytes(b.disk, o.restored[i]) {
      assert o.restored[i] in Listed(o);
    }
    ReadsAlike(b.disk, o.extents, b'.disk, o.extents);
    ReadsAlike(b.disk, o.restored, b'.disk, o.restored);
  }

  /** The copies of an item stay right where its segments and its copies stay. */
  lemma ItemStays(b: Batch, b': Batch, it: Item, segs: seq<Segment>, segs': seq<Segment>)
    requires ItemShape(b, it) && ItemRight(b.disk, it, segs) && MadeKept(b, b') && Spared(b.disk, b'.disk, segs)
    requires forall i :: 0 <= i < |it.old_| && it.old_[i] in segs' ==> it.old_[i] in segs
    ensures ItemRight(b'.disk, it, segs')
  {
    forall i | 0 <= i < |it.new_| && i < |it.old_| && it.old_[i] in segs' ensures Alike(b'.disk, it.old_[i], it.new_[i]) {
      assert Alike(b.disk, it.old_[i], it.new_[i]) && it.new_[i] in b.made;
    }
  }

  /** Plan and copies are those of `b`, and of the planned segments none is listed that was not. */
  ghost predicate SamePlan(b: Batch, b': Batch, segs: seq<Segment>, segs': seq<Segment>) {
    && PlanOk(b) && b'.items == b.items && MadeKept(b, b') && Spared(b.disk, b'.disk, segs)
    && forall j, i :: 0 <= j < |b.items| && 0 <= i < |b.items[j].old_| && b.items[j].old_[i] in segs' ==>
         b.items[j].old_[i] in segs
  }

  lemma ItemsStay(b: Batch, b': Batch, segs: seq<Segment>, segs': seq<Segment>)
    requires SamePlan(b, b', segs, segs') && Right(b, segs)
    ensures forall j :: 0 <= j < |b.items| ==> ItemRight(b'.disk, b'.items[j], segs')
  {
    forall j | 0 <= j < |b.items| ensures ItemRight(b'.disk, b'.items[j], segs') {
      assert ItemShape(b, b.items[j]);
      ItemStays(b, b', b.items[j], segs, segs');
    }
  }

  lemma SameDisk(b: Batch, b': Batch, id: nat)
    requires Ranged(b) && b'.disk == b.disk && b'.eid == b.eid && b'.cap == b.cap && b'.made == b.made
    requires id < |b.store|
    ensures MadeKept(b, b') && Spared(b.disk, b'.disk, Listed(b.store[id]))
  {
    ListedFit(b, id);
  }

  /** `b'` has disk, plan, copies and the object of `b`, and is not in the middle of another copy. */
  ghost predicate Untouched(b: Batch, b': Batch, id: nat) {
    && Inv(b) && id < |b.store| && id < |b'.store| && b'.store[id] == b.store[id]
    && b'.disk == b.disk && b'.eid == b.eid && b'.cap == b.cap && b'.made == b.made && b'.items == b.items
    && b'.wm == b.wm && (b'.ours ==> b.ours)
    && (b'.busy ==> b'.part == 0 || (b.busy && b'.part == b.part && b'.cur == b.cur))
  }

  lemma UntouchedFaithful(b: Batch, b': Batch, id: nat)
    requires Untouched(b, b', id) && Faithful(b, id)
    ensures Faithful(b', id) && ReadsSame(b, b', id)
  {
    var segs := Listed(b.store[id]);
    SameDisk(b, b', id);
    SparedReads(b, b', id);
    if b'.ours {
      ItemsStay(b, b', segs, segs);
      if HasCurrent(b') && Current(b') in segs && b'.part == 0 {
        assert b'.disk[b.eid][b.wm..b.wm + 0] == Bytes(b'.disk, Current(b'))[..0];
      }
    }
  }

  // ---------- writes ----------

  /** A write that takes no extent under the object spares it. */
  lemma PutSpares(b: Batch, ids: seq<nat>, skipped: set<nat>, ranges: seq<(nat, nat)>, o: Object, disk: Disk, id: nat)
    requires Ranged(b) && PutLegal(b, ids, skipped, ranges, o, disk) && id < |b.store|
    requires forall s :: s in Listed(b.store[id]) ==> s.ext !in ids
    ensures Spared(b.disk, disk, Listed(b.store[id]))
  {
    RefsOfObject(b.store, id);
    forall s | s in Listed(b.store[id]) ensures Fits(b.disk, s) && Fits(disk, s) && Bytes(disk, s) == Bytes(b.disk, s) {
      assert s in Refs(b.store);
    }
  }

  lemma PutKeepsMade(b: Batch, ids: seq<nat>, skipped: set<nat>, ranges: seq<(nat, nat)>, o: Object, disk: Disk)
    requires Inv(b) && b.ours && PutLegal(b, ids, skipped, ranges, o, disk)
    ensures MadeKept(b, b.(disk := disk)) && disk[b.eid] == b.disk[b.eid]
  {
    forall s | s in b.made && Fits(b.disk, s) ensures Bytes(disk, s) == Bytes(b.disk, s) {
      assert s.ext == b.eid;
    }
  }

  /** What a write changes. */
  lemma PutFields(b: Batch, ids: seq<nat>, skipped: set<nat>, ranges: seq<(nat, nat)>, o: Object, disk: Disk)
    requires Ranged(b) && PutLegal(b, ids, skipped, ranges, o, disk)
    ensures var b' := Stored(b, ids, skipped, ranges, o, disk);
      b' == b.(led := b'.led, store := b.store + [o], disk := disk, ours := b'.ours) && (b'.ours ==> b.ours)
  {
  }

  /** Where the target and the listed segments stay, so do the copies. */
  lemma WriteRight(b: Batch, disk: Disk, segs: seq<Segment>)
    requires PlanOk(b) && Right(b, segs) && MadeKept(b, b.(disk := disk)) && Spared(b.disk, disk, segs)
    requires b.eid < |disk| && disk[b.eid] == b.disk[b.eid]
    ensures Right(b.(disk := disk), segs)
  {
    ItemsStay(b, b.(disk := disk), segs, segs);
    if HasCurrent(b) && Current(b) in segs {
      assert Bytes(disk, Current(b)) == Bytes(b.disk, Current(b));
    }
  }

  lemma RightOnly(b: Batch, b': Batch, segs: seq<Segment>)
    requires b' == b.(led := b'.led, store := b'.store, ours := b'.ours) && Right(b, segs)
    ensures Right(b', segs)
  {
  }

  lemma PutFaithful(b: Batch, ids: seq<nat>, skipped: set<nat>, ranges: seq<(nat, nat)>, o: Object, disk: Disk, id: nat)
    requires Inv(b) && PutLegal(b, ids, skipped, ranges, o, disk) && Faithful(b, id)
    requires forall s :: s in Listed(b.store[id]) ==> s.ext !in ids
    ensures var b' := Stored(b, ids, skipped, ranges, o, disk); Faithful(b', id) && ReadsSame(b, b', id)
  {
    var b', segs := Stored(b, ids, skipped, ranges, o, disk), Listed(b.store[id]);
    PutSpares(b, ids, skipped, ranges, o, disk, id);
    PutFields(b, ids, skipped, ranges, o, disk);
    SparedReads(b, b', id);
    if b'.ours {
      PutKeepsMade(b, ids, skipped, ranges, o, disk);
      WriteRight(b, disk, segs);
      RightOnly(b.(disk := disk), b', segs);
    }
  }

  // ---------- objects that others make ----------

  lemma SharedRight(b: Batch, segs: seq<Segment>)
    requires b.ours && (forall s :: s in segs ==> s in Refs(b.store)) && forall id :: 0 <= id < |b.store| ==> Faithful(b, id)
    ensures Right(b, segs)
  {
    forall j | 0 <= j < |b.items| ensures ItemRight(b.disk, b.items[j], segs) {
      var it := b.items[j];
      forall i | 0 <= i < |it.new_| && i < |it.old_| && it.old_[i] in segs ensures Alike(b.disk, it.old_[i], it.new_[i]) {
        var id := HolderOf(b, it.old_[i]);
        assert Faithful(b, id) && ItemRight(b.disk, it, Listed(b.store[id]));
      }
    }
    if HasCurrent(b) && Current(b) in segs {
      var id := HolderOf(b, Current(b));
      assert Faithful(b, id);
    }
  }

  /** A copy of an object is as faithful as the objects whose segments it shares. */
  lemma CopyFaithful(b: Batch, o: Object)
    requires Inv(b) && Legal(b, Copy(o)) && forall id :: 0 <= id < |b.store| ==> Faithful(b, id)
    ensures Faithful(Copied(b, o), |b.store|)
  {
    var b' := Copied(b, o);
    if b'.ours {
      SharedRight(b, Listed(o));
      RightOnly(b, b', Listed(o));
    }
  }

  lemma HolderOf(b: Batch, s: Segment) returns (id: nat)
    requires s in Refs(b.store)
    ensures id < |b.store| && s in Listed(b.store[id])
  {
    var o :| o in b.store && s in Listed(o);
    id :| 0 <= id < |b.store| && b.store[id] == o;
  }

  /** Segment `s` may be laid down again on `disk`: where it was copied already, wholly or in part,
      it has the bytes that were copied. The checksums that are part of a segment stand for them. */
  ghost predicate Recreatable(b: Batch, s: Segment, disk: Disk) {
    && (forall j :: 0 <= j < |b.items| ==> ItemRight(disk, b.items[j], [s]))
    && (HasCurrent(b) && Current(b) == s ==> PartCopied(b.(disk := disk)))
  }

  lemma WrittenRight(b: Batch, disk: Disk, segs: seq<Segment>)
    requires forall s :: s in segs ==> Recreatable(b, s, disk)
    ensures Right(b.(disk := disk), segs)
  {
    forall j | 0 <= j < |b.items| ensures ItemRight(disk, b.items[j], segs) {
      var it := b.items[j];
      forall i | 0 <= i < |it.new_| && i < |it.old_| && it.old_[i] in segs ensures Alike(disk, it.old_[i], it.new_[i]) {
        assert Recreatable(b, it.old_[i], disk) && ItemRight(disk, it, [it.old_[i]]);
      }
    }
    if HasCurrent(b) && Current(b) in segs {
      assert Recreatable(b, Current(b), disk);
    }
  }

  /** So is an object that is written: whatever it lays down again has the bytes it had. */
  lemma WrittenFaithful(b: Batch, ids: seq<nat>, skipped: set<nat>, ranges: seq<(nat, nat)>, o: Object, disk: Disk)
    requires Inv(b) && PutLegal(b, ids, skipped, ranges, o, disk)
    requires b.ours ==> forall s :: s in Listed(o) ==> Recreatable(b, s, disk)
    ensures Faithful(Stored(b, ids, skipped, ranges, o, disk), |b.store|)
  {
    var b' := Stored(b, ids, skipped, ranges, o, disk);
    PutFields(b, ids, skipped, ranges, o, disk);
    if b'.ours {
      WrittenRight(b, disk, Listed(o));
      RightOnly(b.(disk := disk), b', Listed(o));
    }
  }

  // ---------- copying ----------

  lemma ChunkIsPart(area: seq<Byte>, s: Segment, part: nat, n: nat)
    requires s.off + s.len <= |area| && part + n <= s.len
    ensures area[s.off..s.off + s.len][..part] + area[s.off + part..s.off + part + n] ==
      area[s.off..s.off + s.len][..part + n]
  {
  }

  lemma RightOnDisk(disk: Disk, e: nat, wm: nat, s: Segment, part: nat, n: nat)
    requires e < |disk| && Fits(disk, s) && s.ext != e && part + n <= s.len
    requires wm + part + Span(n) <= |disk[e]| && disk[e][wm..wm + part] == Bytes(disk, s)[..part]
    ensures var x := disk[s.ext][s.off + part..s.off + part + n];
      var disk' := disk[e := Overlay(disk[e], wm + part, Padded(x))];
      Fits(disk', s) && disk'[e][wm..wm + part + n] == Bytes(disk', s)[..part + n]
  {
    LaidGrows(disk[e], wm, part, disk[s.ext][s.off + part..s.off + part + n]);
    ChunkIsPart(disk[s.ext], s, part, n);
  }

  /** The copied part grows by the chunk and stays right. */
  lemma ChunkRight(b: Batch)
    requires ChunkRoom(b) && PartCopied(b) && Current(b).ext != b.eid
    ensures var n := b.part + Chunked(Current(b), b.part);
      && Fits(Written(b), Current(b)) && b.wm + n <= |Written(b)[b.eid]|
      && Written(b)[b.eid][b.wm..b.wm + n] == Bytes(Written(b), Current(b))[..n]
  {
    RightOnDisk(b.disk, b.eid, b.wm, Current(b), b.part, Chunked(Current(b), b.part));
  }

  /** Nothing is copied from the target: while copies are made nobody refers to it. */
  lemma CurrentElsewhere(b: Batch, id: nat)
    requires Inv(b) && CanChunk(b) && id < |b.store| && Current(b) in Listed(b.store[id])
    ensures Current(b).ext != b.eid
  {
    RefsOfObject(b.store, id);
  }

  /** A copy of the whole segment, as a segment. */
  lemma WholeCopied(disk: Disk, s: Segment, seg: Segment)
    requires Fits(disk, s) && Fits(disk, seg) && seg.len == s.len
    requires disk[seg.ext][seg.off..seg.off + s.len] == Bytes(disk, s)[..s.len]
    ensures Alike(disk, s, seg)
  {
    assert Bytes(disk, s)[..s.len] == Bytes(disk, s);
  }

  lemma ItemGrows(disk: Disk, it: Item, seg: Segment, segs: seq<Segment>, full: bool)
    requires ItemRight(disk, it, segs) && |it.new_| < |it.old_|
    requires it.old_[|it.new_|] in segs ==> Alike(disk, it.old_[|it.new_|], seg)
    ensures ItemRight(disk, Item(it.old_, it.new_ + [seg], full), segs)
  {
    forall i | 0 <= i < |it.new_| + 1 && it.old_[i] in segs ensures Alike(disk, it.old_[i], (it.new_ + [seg])[i]) {
      if i < |it.new_| {
        assert Alike(disk, it.old_[i], it.new_[i]);
      }
    }
  }

  lemma ChunkSparesObject(b: Batch, id: nat)
    requires Inv(b) && CanChunk(b) && id < |b.store|
    ensures ChunkRoom(b) && MadeKept(b, b.(disk := Written(b))) && Spared(b.disk, Written(b), Listed(b.store[id]))
  {
    ChunkSpares(b);
    RefsOfObject(b.store, id);
    ListedFit(b, id);
  }

  lemma LastChunkRight(b: Batch)
    requires LastChunk(b) && ChunkRoom(b) && PartCopied(b) && Current(b).ext != b.eid
    ensures Alike(AfterChunk(b).disk, Current(b), AfterChunk(b).made[|b.made|])
  {
    ChunkRight(b);
    WholeCopied(Written(b), Current(b), AfterChunk(b).made[|b.made|]);
  }

  lemma LastChunkFaithful(b: Batch, id: nat)
    requires Inv(b) && LastChunk(b) && id < |b.store| && Right(b, Listed(b.store[id])) && ChunkRoom(b)
    ensures Right(AfterChunk(b), Listed(b.store[id]))
  {
    var b', segs := AfterChunk(b), Listed(b.store[id]);
    ChunkSparesObject(b, id);
    ItemsStay(b, b.(disk := Written(b)), segs, segs);
    forall j | 0 <= j < |b.items| ensures ItemRight(b'.disk, b'.items[j], segs) {
      if j == b.cur {
        if Current(b) in segs {
          CurrentElsewhere(b, id);
          LastChunkRight(b);
        }
        assert ItemRight(Written(b), b.items[j], segs);
        ItemGrows(b'.disk, b.items[j], b'.made[|b.made|], segs, b'.items[j].full);
      }
    }
    LastChunkPartRight(b, id);
  }

  lemma LastChunkPartRight(b: Batch, id: nat)
    requires Inv(b) && LastChunk(b) && id < |b.store| && ChunkRoom(b)
    ensures PartRight(AfterChunk(b), Listed(b.store[id]))
  {
    var b' := AfterChunk(b);
    LastChunkKeeps(b);
    ListedFit(b', id);
    if HasCurrent(b') && Current(b') in Listed(b.store[id]) {
      assert b'.disk[b.eid][b'.wm..b'.wm + 0] == Bytes(b'.disk, Current(b'))[..0];
    }
  }

  lemma MidChunkFaithful(b: Batch, id: nat)
    requires Inv(b) && CanChunk(b) && !LastChunk(b) && id < |b.store| && Right(b, Listed(b.store[id])) && ChunkRoom(b)
    ensures Right(AfterChunk(b), Listed(b.store[id]))
  {
    var segs := Listed(b.store[id]);
    ChunkSparesObject(b, id);
    ItemsStay(b, b.(disk := Written(b)), segs, segs);
    if Current(b) in segs {
      CurrentElsewhere(b, id);
      ChunkRight(b);
    }
  }

  /** A chunk of a copy keeps all copies right, the one that it goes on with as well. */
  lemma ChunkFaithful(b: Batch, id: nat)
    requires Inv(b) && CanChunk(b) && Faithful(b, id)
    ensures ChunkRoom(b) && Faithful(AfterChunk(b), id) && ReadsSame(b, AfterChunk(b), id)
  {
    ChunkSparesObject(b, id);
    SparedReads(b, AfterChunk(b), id);
    if LastChunk(b) {
      LastChunkFaithful(b, id);
    } else {
      MidChunkFaithful(b, id);
    }
  }

  // ---------- switching ----------

  /** What a switch that commits replaces: segments of its object, by copies of the same lengths. */
  ghost predicate Replaceable(b: Batch, at: nat)
    requires b.next < |b.items| && at < |b.store|
  {
    var it, o := b.items[b.next], b.store[at];
    && it.old_ != [] && |it.new_| == |it.old_| && L.Distinct(it.old_)
    && AllFit(b.disk, o.extents) && AllFit(b.disk, o.restored)
    && forall i :: 0 <= i < |it.old_| ==>
         && it.old_[i] in Listed(o) && Fits(b.disk, it.old_[i]) && it.old_[i].len > 0
         && it.new_[i].ext == b.eid && it.new_[i].len == it.old_[i].len && Fits(b.disk, it.new_[i])
  }

  lemma CopiesOnDisk(b: Batch)
    requires Ranged(b) && PlanOk(b) && b.next < |b.items|
    ensures forall i :: 0 <= i < |b.items[b.next].new_| ==>
      && b.items[b.next].new_[i].ext == b.eid && Fits(b.disk, b.items[b.next].new_[i])
      && i < |b.items[b.next].old_| && b.items[b.next].new_[i].len == b.items[b.next].old_[i].len > 0
  {
    assert ItemShape(b, b.items[b.next]);
  }

  lemma SwitchReplaces(b: Batch, at: nat)
    requires Inv(b) && Commits(b, at)
    ensures Replaceable(b, at)
  {
    var it := b.items[b.next];
    CopiesOnDisk(b);
    HeldInRange(b, at);
    Planned(b.store[at], it.old_, it.new_);
    ListedFit(b, at);
    forall i | 0 <= i < |it.old_| ensures it.old_[i] in Listed(b.store[at]) && Fits(b.disk, it.old_[i]) {
      assert it.old_[i] in it.old_;
    }
  }

  lemma RemapDiffers(disk: Disk, segs: seq<Segment>, disk': Disk, gone: seq<Segment>, copies: seq<Segment>, x: nat, p: nat)
    requires |gone| == |copies| && L.Distinct(gone) && x < |gone| && p < |segs| && segs[p] == gone[x]
    requires AllFit(disk, segs) && AllFit(disk', Remap(segs, gone, copies))
    requires forall i :: 0 <= i < |gone| ==> copies[i].len == gone[i].len
    requires Fits(disk, gone[x]) && Fits(disk', copies[x]) && Bytes(disk, gone[x]) != Bytes(disk', copies[x])
    ensures Read(disk, segs) != Read(disk', Remap(segs, gone, copies))
  {
    assert IndexOf(gone, gone[x]) == x;
    ReadsDiffer(disk, segs, disk', Remap(segs, gone, copies), p);
  }

  lemma SpoiltObject(disk: Disk, o: Object, disk': Disk, gone: seq<Segment>, copies: seq<Segment>, x: nat)
    requires Migrate(o, gone, copies).Some? && L.Distinct(gone) && x < |gone| && gone[x] in Listed(o)
    requires forall i :: 0 <= i < |gone| ==> copies[i].len == gone[i].len
    requires Fits(disk, gone[x]) && Fits(disk', copies[x]) && Bytes(disk, gone[x]) != Bytes(disk', copies[x])
    requires AllFit(disk, o.extents) && AllFit(disk, o.restored)
    requires AllFit(disk', Remap(o.extents, gone, copies)) && AllFit(disk', Remap(o.restored, gone, copies))
    ensures Read(disk, o.extents) != Read(disk', Remap(o.extents, gone, copies)) ||
            Read(disk, o.restored) != Read(disk', Remap(o.restored, gone, copies))
  {
    var p :| 0 <= p < |Listed(o)| && Listed(o)[p] == gone[x];
    if p < |o.extents| {
      RemapDiffers(disk, o.extents, disk', gone, copies, x, p);
    } else {
      RemapDiffers(disk, o.restored, disk', gone, copies, x, p - |o.extents|);
    }
  }

  lemma MigratedReadsIff(disk: Disk, o: Object, gone: seq<Segment>, copies: seq<Segment>)
    requires Migrate(o, gone, copies).Some? && L.Distinct(gone) && AllFit(disk, o.extents) && AllFit(disk, o.restored)
    requires forall i :: 0 <= i < |gone| ==>
      gone[i] in Listed(o) && Fits(disk, gone[i]) && Fits(disk, copies[i]) && copies[i].len == gone[i].len
    ensures var o' := Migrate(o, gone, copies).value;
      && AllFit(disk, o'.extents) && AllFit(disk, o'.restored)
      && (Read(disk, o'.extents) == Read(disk, o.extents) && Read(disk, o'.restored) == Read(disk, o.restored) <==>
          forall i :: 0 <= i < |gone| ==> Alike(disk, gone[i], copies[i]))
  {
    if forall i :: 0 <= i < |gone| ==> Alike(disk, gone[i], copies[i]) {
      RemapReads(disk, o.extents, gone, copies);
      RemapReads(disk, o.restored, gone, copies);
    } else {
      var x :| 0 <= x < |gone| && !Alike(disk, gone[x], copies[x]);
      SpoiltObject(disk, o, disk, gone, copies, x);
    }
  }

  /** Whoever has the target by now: the object reads the same after a commit if and only if the copies
      still have the bytes of the segments that they replace. */
  lemma SwitchReadsIff(b: Batch, at: nat)
    requires Inv(b) && Commits(b, at)
    ensures Replaceable(b, at) && (ReadsSame(b, CommitOf(b, at), at) <==> CopiesRight(b))
  {
    SwitchReplaces(b, at);
    MigratedReadsIff(b.disk, b.store[at], b.items[b.next].old_, b.items[b.next].new_);
  }

  /** They do as long as the target is the batch's. */
  lemma OursIsRight(b: Batch, at: nat)
    requires Inv(b) && Commits(b, at) && b.ours && Faithful(b, at)
    ensures CopiesRight(b)
  {
    SwitchReplaces(b, at);
    var it := b.items[b.next];
    assert ItemRight(b.disk, it, Listed(b.store[at]));
  }

  /** The switched object lists no planned segment that it has not listed before. */
  lemma SwitchFaithful(b: Batch, at: nat)
    requires Inv(b) && b.open.Some? && b.phase == Switches && Commits(b, at) && Faithful(b, at)
    ensures Faithful(CommitOf(b, at), at)
  {
    var b', segs, segs' := CommitOf(b, at), Listed(b.store[at]), Listed(Switched(b, at));
    if b'.ours {
      SwitchedLists(b, at);
      SameDisk(b, b', at);
      assert ItemShape(b, b.items[b.next]);
      forall s | s in b.items[b.next].new_ ensures s in b.made {
        var x :| 0 <= x < |b.items[b.next].new_| && b.items[b.next].new_[x] == s;
      }
      ItemsStay(b, b', segs, segs');
    }
  }

  // ---------- any step ----------

  /** The step is a transaction of somebody else on object `id`. */
  predicate ActsOn(p: Step, id: nat) {
    p.Delete? && p.id == id
  }

  /** The step takes no extent under object `id`, and moves it to a target that somebody else may have had
      only if the copies are right all the same. */
  ghost predicate Minds(b: Batch, p: Step, id: nat)
    requires id < |b.store|
  {
    match p
    case Put(ids, _, _, _, _) => forall s :: s in Listed(b.store[id]) ==> s.ext !in ids
    case Close(at, _) => Commit(b, p) && at == id ==> b.ours || CopiesRight(b)
    case _ => true
  }

  lemma CloseReads(b: Batch, at: nat, fails: bool, id: nat)
    requires Inv(b) && Legal(b, Close(at, fails)) && Faithful(b, id) && Minds(b, Close(at, fails), id)
    ensures var c := After(b, Close(at, fails)); Faithful(c, id) && ReadsSame(b, c, id)
  {
    if Commit(b, Close(at, fails)) && at == id {
      SwitchFaithful(b, at);
      if b.ours {
        OursIsRight(b, at);
      }
      SwitchReadsIff(b, at);
    } else {
      UntouchedFaithful(b, After(b, Close(at, fails)), id);
    }
  }

  lemma OwnReads(b: Batch, p: Step, id: nat)
    requires Inv(b) && Legal(b, p) && Own(p) && !p.Chunk? && !p.Close? && Faithful(b, id)
    ensures Faithful(After(b, p), id) && ReadsSame(b, After(b, p), id)
  {
    UntouchedFaithful(b, After(b, p), id);
  }

  lemma OtherReads(b: Batch, p: Step, id: nat)
    requires Inv(b) && Legal(b, p) && !Own(p) && !p.Put? && Faithful(b, id) && !ActsOn(p, id)
    ensures Faithful(After(b, p), id) && ReadsSame(b, After(b, p), id)
  {
    UntouchedFaithful(b, After(b, p), id);
  }

  /** Whatever a step does to the books: an object that it does not delete reads the same, and its copies
      stay right, if the step minds the object. */
  lemma StepReads(b: Batch, p: Step, id: nat)
    requires Inv(b) && Legal(b, p) && Faithful(b, id) && !ActsOn(p, id) && Minds(b, p, id)
    ensures Faithful(After(b, p), id) && ReadsSame(b, After(b, p), id)
  {
    if p.Put? {
      PutFaithful(b, p.ids, p.skipped, p.ranges, p.o, p.disk, id);
    } else if !Own(p) {
      OtherReads(b, p, id);
    } else if p.Close? {
      CloseReads(b, p.at, p.fails, id);
    } else if p.Chunk? {
      ChunkFaithful(b, id);
    } else {
      OwnReads(b, p, id);
    }
  }

  // ---------- runs ----------

  ghost predicate AllMind(b: Batch, run: seq<Step>, id: nat)
    requires RunLegal(b, run)
    decreases |run|
  {
    run == [] ||
    (id < |b.store| && Minds(b, run[0], id) && AllMind(After(b, run[0]), run[1..], id))
  }

  predicate LeavesAlone(run: seq<Step>, id: nat) {
    forall i :: 0 <= i < |run| ==> !ActsOn(run[i], id)
  }

  lemma ReadsItself(b: Batch, id: nat)
    requires Ranged(b) && id < |b.store|
    ensures ReadsSame(b, b, id)
  {
    ListedFit(b, id);
  }

  lemma ReadsTwice(a: Batch, b: Batch, c: Batch, id: nat)
    requires ReadsSame(a, b, id) && ReadsSame(b, c, id)
    ensures ReadsSame(a, c, id)
  {
  }

  lemma LeavesRest(run: seq<Step>, id: nat)
    requires run != [] && LeavesAlone(run, id)
    ensures !ActsOn(run[0], id) && LeavesAlone(run[1..], id)
  {
    forall i | 0 <= i < |run[1..]| ensures !ActsOn(run[1..][i], id) {
      assert run[1..][i] == run[i + 1];
    }
  }

  /** Whatever mix of copies, switches, failures and conflicts a batch goes through, and whatever others
      delete, copy, write and pin meanwhile, while a switch is open too, into extents that it has freed, and
      however wrong the books become: an object that nobody deletes reads back the same, unless somebody
      takes an extent under it, or it is switched onto a lost target whose copies are not right. */
  lemma {:induction false} MeaningIsPreserved(b: Batch, run: seq<Step>, id: nat)
    requires Inv(b) && RunLegal(b, run) && Faithful(b, id) && LeavesAlone(run, id) && AllMind(b, run, id)
    ensures ReadsSame(b, AfterAll(b, run), id)
    decreases |run|
  {
    if run == [] {
      ReadsItself(b, id);
    } else {
      var c := After(b, run[0]);
      LeavesRest(run, id);
      StepKeeps(b, run[0]);
      StepReads(b, run[0], id);
      MeaningIsPreserved(c, run[1..], id);
      ReadsTwice(b, c, AfterAll(c, run[1..]), id);
    }
  }

  // ---------- a window that ends in a commit ----------

  /** The run ends no switch. */
  predicate Window(run: seq<Step>) {
    forall i :: 0 <= i < |run| ==> !run[i].Close?
  }

  /** The step takes no extent under a segment that the switch leaves in the object. */
  ghost predicate MindsRest(b: Batch, p: Step, id: nat)
    requires b.next < |b.items| && id < |b.store|
  {
    p.Put? ==> forall s :: s in Listed(b.store[id]) && s !in b.items[b.next].old_ ==> s.ext !in p.ids
  }

  ghost predicate AllMindRest(b: Batch, run: seq<Step>, id: nat)
    requires RunLegal(b, run)
    decreases |run|
  {
    run == [] ||
    (b.next < |b.items| && id < |b.store| && MindsRest(b, run[0], id) && AllMindRest(After(b, run[0]), run[1..], id))
  }

  lemma SwitchedFit(b: Batch, id: nat)
    requires Inv(b) && Commits(b, id)
    ensures forall s :: s in Listed(Switched(b, id)) ==> Fits(b.disk, s)
  {
    SwitchReplaces(b, id);
    SwitchedLists(b, id);
    ListedFit(b, id);
    forall s | s in b.items[b.next].new_ ensures Fits(b.disk, s) {
      var x :| 0 <= x < |b.items[b.next].new_| && b.items[b.next].new_[x] == s;
    }
  }

  lemma PutSparesRest(b: Batch, p: Step, id: nat)
    requires Inv(b) && Legal(b, p) && p.Put? && b.ours && Commits(b, id) && MindsRest(b, p, id)
    ensures Spared(b.disk, p.disk, Listed(Switched(b, id)))
  {
    SwitchReplaces(b, id);
    SwitchedLists(b, id);
    SwitchedFit(b, id);
    RefsOfObject(b.store, id);
    forall s | s in Listed(Switched(b, id)) ensures Fits(p.disk, s) && Bytes(p.disk, s) == Bytes(b.disk, s) {
      if s in b.items[b.next].new_ {
        var x :| 0 <= x < |b.items[b.next].new_| && b.items[b.next].new_[x] == s;
        assert p.disk[b.eid] == b.disk[b.eid];
      } else {
        assert s in Refs(b.store);
      }
    }
  }

  /** Others leave plan and object of an open switch alone. */
  lemma WindowStep(b: Batch, p: Step, id: nat)
    requires Inv(b) && b.open.Some? && Legal(b, p) && !p.Close? && Commits(b, id) && !ActsOn(p, id)
    ensures var c := After(b, p);
      && c.open.Some? && Commits(c, id) && Switched(c, id) == Switched(b, id) && c.store[id] == b.store[id]
      && (c.ours ==> b.ours) && (!p.Put? ==> c.disk == b.disk) && (p.Put? ==> c.disk == p.disk)
  {
  }

  lemma WindowSpares(b: Batch, p: Step, id: nat)
    requires Inv(b) && b.open.Some? && Legal(b, p) && !p.Close? && Commits(b, id) && !ActsOn(p, id)
    requires MindsRest(b, p, id) && After(b, p).ours
    ensures Spared(b.disk, After(b, p).disk, Listed(Switched(b, id)))
  {
    WindowStep(b, p, id);
    SwitchedFit(b, id);
    if p.Put? {
      PutSparesRest(b, p, id);
    }
  }

  /** Both objects list the same, and it has the same bytes. */
  lemma SparedObject(b: Batch, b': Batch, id: nat, o: Object)
    requires id < |b.store| && id < |b'.store| && b.store[id] == o && b'.store[id] == o
    requires Spared(b.disk, b'.disk, Listed(o))
    ensures ReadsSame(b, b', id)
  {
    forall i | 0 <= i < |o.extents|
      ensures Fits(b.disk, o.extents[i]) && Fits(b'.disk, o.extents[i]) && Bytes(b'.disk, o.extents[i]) == Bytes(b.disk, o.extents[i])
    {
      assert o.extents[i] in Listed(o);
    }
    forall i | 0 <= i < |o.restored|
      ensures Fits(b.disk, o.restored[i]) && Fits(b'.disk, o.restored[i]) && Bytes(b'.disk, o.restored[i]) == Bytes(b.disk, o.restored[i])
    {
      assert o.restored[i] in Listed(o);
    }
    ReadsAlike(b.disk, o.extents, b'.disk, o.extents);
    ReadsAlike(b.disk, o.restored, b'.disk, o.restored);
  }

  lemma WindowKeeps(b: Batch, p: Step, id: nat)
    requires Inv(b) && b.open.Some? && Legal(b, p) && !p.Close? && Commits(b, id) && !ActsOn(p, id)
    requires MindsRest(b, p, id) && After(b, p).ours
    ensures var c := After(b, p); Commits(c, id) && ReadsSame(CommitOf(b, id), CommitOf(c, id), id)
  {
    WindowStep(b, p, id);
    WindowSpares(b, p, id);
    SparedObject(CommitOf(b, id), CommitOf(After(b, p), id), id, Switched(b, id));
  }

  lemma RestStep(b: Batch, p: Step, id: nat)
    requires Inv(b) && b.open.Some? && Legal(b, p) && !p.Close? && Commits(b, id) && !ActsOn(p, id)
    ensures var c := After(b, p); Inv(c) && c.open.Some? && Commits(c, id) && (c.ours ==> b.ours)
  {
    StepKeeps(b, p);
    WindowStep(b, p, id);
  }

  lemma SwitchedItself(b: Batch, id: nat)
    requires Inv(b) && Commits(b, id)
    ensures ReadsSame(CommitOf(b, id), CommitOf(b, id), id)
  {
    SwitchedFit(b, id);
    SparedObject(CommitOf(b, id), CommitOf(b, id), id, Switched(b, id));
  }

  lemma {:induction false} RestReads(b: Batch, run: seq<Step>, id: nat)
    requires Inv(b) && b.open.Some? && RunLegal(b, run) && Window(run) && Commits(b, id) && LeavesAlone(run, id)
    requires AllMindRest(b, run, id) && AfterAll(b, run).ours
    ensures var c := AfterAll(b, run); Commits(c, id) && ReadsSame(CommitOf(b, id), CommitOf(c, id), id) && b.ours
    decreases |run|
  {
    if run == [] {
      SwitchedItself(b, id);
    } else {
      var p, rest, c := run[0], run[1..], After(b, run[0]);
      assert !p.Close? && forall i :: 0 <= i < |rest| ==> rest[i] == run[i + 1];
      LeavesRest(run, id);
      RestStep(b, p, id);
      RestReads(c, rest, id);
      WindowKeeps(b, p, id);
      ReadsTwice(CommitOf(b, id), CommitOf(c, id), CommitOf(AfterAll(c, rest), id), id);
    }
  }

  /** Extents that the open switch has emptied may be taken from under its object, as long as it commits
      onto the batch's own target: the object reads the same after the commit, and only in between it may
      not. */
  lemma WindowReads(b: Batch, run: seq<Step>, id: nat)
    requires Inv(b) && b.open.Some? && RunLegal(b, run) && Window(run) && Commits(b, id) && LeavesAlone(run, id)
    requires Faithful(b, id) && AllMindRest(b, run, id) && AfterAll(b, run).ours
    ensures var c := AfterAll(b, run); Commits(c, id) && ReadsSame(b, CommitOf(c, id), id)
  {
    RestReads(b, run, id);
    OursIsRight(b, id);
    SwitchReadsIff(b, id);
    ReadsTwice(b, CommitOf(b, id), CommitOf(AfterAll(b, run), id), id);
  }
}
