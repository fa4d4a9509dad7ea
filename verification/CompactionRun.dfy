/** A compaction batch as a state machine, interleaved with other transactions at every step, and the shape
    that its state keeps whatever anybody does.

    The allocator is part of the state: every switch, write and delete moves its ledger. The target
    belongs to the batch as long as its bit stays set; when a settled transaction empties it, it is
    free, and others may take it and write to it. */
module CompactionRuns {
  import opened Words
  import opened Compactions
  import opened Migrations
  import Codecs
  import Crcs
  import L = Ledgers
  import H = Holdings
  import R = Runs
  import Rollbacks
  import C = CompactionLedgers
  import U = Undoing
  import W = CompactionWindows
  import O = CompactionOutcomes

  /** One object of the plan: its segments in candidate extents and the copies made so far. */
  datatype Item = Item(old_: seq<Segment>, new_: seq<Segment>, full: bool)

  datatype Phase = Copies | Switches | Done

  datatype Batch = Batch(
    led: L.Ledger,
    disk: Disk,
    /** A deleted object is left behind without segments. */
    store: seq<Object>,
    cap: nat,
    eid: nat,
    items: seq<Item>,
    /** The item being copied, whether its copy has begun, how far its current segment is, and the
        checksums of that part. */
    cur: nat, busy: bool, part: nat, crcs: seq<nat>,
    /** The target extent's watermark and every segment laid down below it. */
    wm: nat, made: seq<Segment>,
    phase: Phase,
    next: nat,
    /** The draft of the switch that is open: applied and settled, but its outcome is not known yet. */
    open: Option<L.Staged>,
    /** The target's allocation has not been handed to a switch yet. */
    pending: bool,
    commits: nat,
    /** The target has been allocated without a break since the batch took it. */
    ours: bool)

  const GONE := Object([], [])

  // ---------- references ----------

  /** The segments that some object refers to. */
  ghost function Refs(store: seq<Object>): set<Segment> {
    set o, s | o in store && s in Listed(o) :: s
  }

  /** The objects as the allocator sees them. */
  function Held(store: seq<Object>): (r: seq<H.Object>)
    ensures |r| == |store| && forall i :: 0 <= i < |r| ==> r[i] == KeysOf(Listed(store[i]))
  {
    seq(|store|, i requires 0 <= i < |store| => KeysOf(Listed(store[i])))
  }

  ghost predicate NoneIn(store: seq<Object>, e: nat) {
    forall s :: s in Refs(store) ==> s.ext != e
  }

  /** Everything that an object refers to lies in an allocated extent. */
  ghost predicate OnAllocated(b: Batch, id: nat)
    requires id < |b.store|
  {
    forall s :: s in Listed(b.store[id]) ==> s.ext < |b.led.bits| && b.led.bits[s.ext]
  }

  /** Extents, objects and the open draft are in range. */
  ghost predicate Ranged(b: Batch) {
    && L.WellFormed(b.led) && |b.led.bits| == |b.disk| && b.eid < |b.disk| && b.cap < L.U32
    && (forall e :: 0 <= e < |b.disk| ==> |b.disk[e]| == b.cap)
    && R.ObjectsOk(|b.led.bits|, Held(b.store))
    && (forall s :: s in Refs(b.store) ==> Fits(b.disk, s))
    && (b.open.Some? ==> b.next < |b.items| && L.DraftInRange(b.led, b.open.value))
  }

  /** The ledger as it will be if the open switch fails; without one, the ledger. */
  ghost function Books(b: Batch): (r: L.Ledger)
    requires Ranged(b)
    ensures L.WellFormed(r) && |r.bits| == |b.led.bits|
  {
    if b.open.Some? then L.Rollback(b.led, b.open.value) else b.led
  }

  /** The books are right if the open switch fails: live bytes, share entries and bits of the ledger that it
      leaves account for the objects. */
  ghost predicate Accounted(b: Batch) {
    Ranged(b) && R.SpaceAccounts(Books(b), Held(b.store), [])
  }

  /** The books are right if the open switch commits: the ledger accounts for the objects as it will leave
      them. */
  ghost predicate Foreseen(b: Batch) {
    && Ranged(b)
    && if b.open.None? then R.SpaceAccounts(b.led, Held(b.store), [])
       else O.Ahead(b.led, Held(b.store), NewKeys(b), OldKeys(b))
  }

  /** The copies and the planned segments of the next item, as the allocator knows them. */
  function NewKeys(b: Batch): seq<L.Seg>
    requires b.next < |b.items|
  {
    KeysOf(b.items[b.next].new_)
  }

  function OldKeys(b: Batch): seq<L.Seg>
    requires b.next < |b.items|
  {
    KeysOf(b.items[b.next].old_)
  }

  lemma RefKey(store: seq<Object>, s: Segment)
    requires s in Refs(store)
    ensures Key(s) in H.Keys(Held(store))
  {
    var o :| o in store && s in Listed(o);
    var i :| 0 <= i < |store| && store[i] == o;
    KeyMembers(Listed(o));
    var ks := Held(store)[i];
    assert ks in Held(store) && Key(s) in ks;
  }

  lemma KeyRef(store: seq<Object>, k: L.Seg) returns (s: Segment)
    requires k in H.Keys(Held(store))
    ensures s in Refs(store) && Key(s) == k
  {
    var o :| o in Held(store) && k in o;
    var i :| 0 <= i < |store| && Held(store)[i] == o;
    KeyMembers(Listed(store[i]));
    s :| s in Listed(store[i]) && Key(s) == k;
    assert store[i] in store;
  }

  lemma RefsOfObject(store: seq<Object>, id: nat)
    requires id < |store|
    ensures forall s :: s in Listed(store[id]) ==> s in Refs(store)
  {
    assert store[id] in store;
  }

  // ---------- steps ----------

  datatype Step =
    /** Copying of the current item begins: its segments fit into what is left of the target. */
    | Begin
    /** The next chunk of the current segment is copied. */
    | Chunk
    /** The current item is left alone, or its copy failed. */
    | Pass
    | EndCopies
    /** The next item has no complete copy. */
    | Skip
    /** The switch of the next item begins: its draft is applied and settled. */
    | Open
    /** The switch ends. By now the planned name stands for object `at`, whichever that is;
        `fails` stands for errors of the metadata store itself. */
    | Close(at: nat, fails: bool)
    | Finish
    // The environment:
    | Delete(id: nat)
    /** A new object that shares segments. */
    | Copy(o: Object)
    /** A new object of its own; an overwrite puts the new object and deletes the old one. */
    | Put(ids: seq<nat>, skipped: set<nat>, ranges: seq<(nat, nat)>, o: Object, disk: Disk)
    | Pin(ids: seq<nat>)
    | Unpin(ids: seq<nat>)

  function Chunked(s: Segment, part: nat): nat
    requires part <= s.len
  {
    if s.len - part < GRID then s.len - part else GRID
  }

  /** The segment that is being copied. */
  predicate HasCurrent(b: Batch) {
    b.busy && b.cur < |b.items| && |b.items[b.cur].new_| < |b.items[b.cur].old_|
  }

  function Current(b: Batch): Segment
    requires HasCurrent(b)
  {
    b.items[b.cur].old_[|b.items[b.cur].new_|]
  }

  predicate CanChunk(b: Batch) {
    && b.phase == Copies && HasCurrent(b) && b.part < Current(b).len
    && Current(b).ext < |b.disk| && Current(b).off + Span(Current(b).len) <= |b.disk[Current(b).ext]|
  }

  /** The bytes of the next chunk, as the disk has them now. */
  function ChunkData(b: Batch): (r: seq<Byte>)
    requires CanChunk(b)
    ensures |r| == Chunked(Current(b), b.part)
  {
    var s := Current(b);
    b.disk[s.ext][s.off + b.part..s.off + b.part + Chunked(s, b.part)]
  }

  predicate ChunkRoom(b: Batch) {
    && CanChunk(b) && b.eid < |b.disk|
    && b.wm + b.part + Span(Chunked(Current(b), b.part)) <= |b.disk[b.eid]|
  }

  /** The disk with the next chunk written, padded to whole sectors. */
  function Written(b: Batch): Disk
    requires ChunkRoom(b)
  {
    b.disk[b.eid := Overlay(b.disk[b.eid], b.wm + b.part, Padded(ChunkData(b)))]
  }

  /** The current segment's copy is complete; its checksums are those computed on the way. */
  function Completed(b: Batch, disk: Disk, crcs: seq<nat>): Batch
    requires HasCurrent(b)
  {
    var it, seg := b.items[b.cur], Segment(b.eid, b.wm, Current(b).len, crcs);
    var it' := it.(new_ := it.new_ + [seg], full := |it.new_| + 1 == |it.old_|);
    b.(disk := disk, part := 0, crcs := [], wm := b.wm + Span(seg.len), made := b.made + [seg],
       items := b.items[b.cur := it'],
       busy := !it'.full, cur := if it'.full then b.cur + 1 else b.cur)
  }

  function AfterChunk(b: Batch): Batch
    requires ChunkRoom(b)
  {
    var part, crcs := b.part + Chunked(Current(b), b.part), b.crcs + [Codecs.Checksum(ChunkData(b))];
    if part < Current(b).len then b.(disk := Written(b), part := part, crcs := crcs)
    else Completed(b, Written(b), crcs)
  }

  /** No copy looks exactly like a segment that is still to be replaced. It cannot unless the target is
      itself one of the extents of the plan, emptied and allocated again since the plan was made. */
  ghost predicate NoClash(b: Batch) {
    forall j, i :: 0 <= j < |b.items| && 0 <= i < |b.items[j].old_| ==> b.items[j].old_[i] !in b.made
  }

  /** A writer takes free extents and may write anything there, whatever lay there. In the other
      allocated extents it leaves alone what is referred to, and it keeps out of the target as long as
      that is the batch's. */
  ghost predicate DiskLegal(b: Batch, ids: seq<nat>, disk: Disk) {
    && |disk| == |b.disk| == |b.led.bits|
    && (forall e :: 0 <= e < |disk| ==> |disk[e]| == |b.disk[e]|)
    && (forall e :: 0 <= e < |disk| && ((!b.led.bits[e] && e !in ids) || (b.ours && e == b.eid)) ==> disk[e] == b.disk[e])
    && (forall s :: s in Refs(b.store) && Fits(b.disk, s) && s.ext !in ids ==> Bytes(disk, s) == Bytes(b.disk, s))
  }

  /** The new object lies in allocated extents of the writer's. */
  ghost predicate PutLegal(b: Batch, ids: seq<nat>, skipped: set<nat>, ranges: seq<(nat, nat)>, o: Object, disk: Disk)
    requires L.WellFormed(b.led)
  {
    && L.MayTake(b.led, ids, skipped) && multiset(L.Expand(ranges)) == multiset(ids)
    && var w := C.Writer(b.led, Held(b.store), ids, skipped, ranges);
       && R.PutLegal(w, KeysOf(Listed(o)), []) && Rollbacks.InAllocated(w.txn.led, KeysOf(Listed(o)))
       && DiskLegal(b, ids, disk)
       && (forall s :: s in Listed(o) ==> Fits(disk, s))
       && (b.ours ==> forall s :: s in Listed(o) ==> s.ext != b.eid)
  }

  ghost predicate Legal(b: Batch, p: Step)
    requires L.WellFormed(b.led)
  {
    match p
    case Begin => b.phase == Copies && !b.busy && b.cur < |b.items| && b.items[b.cur].new_ == [] &&
                  b.items[b.cur].old_ != [] && b.wm + Room(b.items[b.cur].old_) <= b.cap
    case Chunk => ChunkRoom(b)
    case Pass => b.phase == Copies && b.cur < |b.items|
    case EndCopies => b.phase == Copies && !b.busy && NoClash(b)
    case Skip => b.phase == Switches && b.open.None? && b.next < |b.items| && !Attempts(b)
    case Open => b.phase == Switches && b.open.None? && Attempts(b) && InRangeItem(b, b.items[b.next]) &&
                 O.HasRoom(|b.led.bits|, Held(b.store), NewKeys(b))
    case Close(_, _) => b.phase == Switches && b.open.Some? && Attempts(b)
    case Finish => b.phase == Switches && b.open.None? && b.next == |b.items|
    case Delete(id) => id < |b.store|
    case Copy(o) => L.Distinct(KeysOf(Listed(o))) && forall s :: s in Listed(o) ==> s in Refs(b.store)
    case Put(ids, skipped, ranges, o, disk) => PutLegal(b, ids, skipped, ranges, o, disk)
    case Pin(ids) => forall e :: e in ids ==> !NoneIn(b.store, e)
    case Unpin(ids) => R.UnpinLegal(b.led, ids)
  }

  /** The allocation that the next switch hands in. */
  function Alloc(b: Batch): seq<(nat, nat)> {
    if b.pending then [(b.eid, 1)] else []
  }

  predicate Attempts(b: Batch) {
    b.next < |b.items| && b.items[b.next].full && b.items[b.next].new_ != []
  }

  /** The next switch finds all planned segments in object `at`. */
  predicate Commits(b: Batch, at: nat) {
    Attempts(b) && at < |b.store| && Migrate(b.store[at], b.items[b.next].old_, b.items[b.next].new_).Some?
  }

  /** The target stops being the batch's when its bit is clear after a step. */
  function Watched(b: Batch): Batch {
    b.(ours := b.ours && b.eid < |b.led.bits| && b.led.bits[b.eid])
  }

  predicate InRangeItem(b: Batch, it: Item) {
    && L.InRange(b.led, KeysOf(it.new_)) && L.InRange(b.led, KeysOf(it.old_))
    && L.Below(L.Expand(Alloc(b)), |b.led.bits|)
  }

  /** The copies are counted and the planned segments released, and what that empties is settled. */
  function Opened(b: Batch): Batch
    requires b.next < |b.items| && L.WellFormed(b.led) && InRangeItem(b, b.items[b.next])
  {
    var it := b.items[b.next];
    C.MovedShape(b.led, Alloc(b), KeysOf(it.new_), KeysOf(it.old_));
    var t := C.Moved(b.led, Alloc(b), KeysOf(it.new_), KeysOf(it.old_));
    b.(led := L.Settle(t.led, t.draft.cleared), open := Some(t.draft))
  }

  /** The metadata changes, and the ledger stays as it is. */
  function CommitOf(b: Batch, at: nat): Batch
    requires Commits(b, at)
  {
    var it := b.items[b.next];
    b.(open := None, next := b.next + 1, pending := false, commits := b.commits + 1,
       store := b.store[at := Migrate(b.store[at], it.old_, it.new_).value])
  }

  /** The draft is rolled back; if nothing has been switched yet, that ends the batch. */
  ghost function FailOf(b: Batch): Batch
    requires b.open.Some? && L.WellFormed(b.led) && L.DraftInRange(b.led, b.open.value)
  {
    var undone := b.(led := L.Rollback(b.led, b.open.value), open := None, next := b.next + 1);
    Watched(if b.commits > 0 then undone else undone.(pending := false, phase := Done))
  }

  ghost function Closed(b: Batch, at: nat, fails: bool): Batch
    requires b.open.Some? && L.WellFormed(b.led) && L.DraftInRange(b.led, b.open.value)
  {
    if Commits(b, at) && !fails then CommitOf(b, at) else FailOf(b)
  }

  function Finished(b: Batch): Batch
    requires L.WellFormed(b.led) && b.eid < |b.led.bits|
  {
    ExpandOne(b.eid);
    Watched(b.(phase := Done, pending := false,
               led := if b.pending then L.Rollback(b.led, L.EMPTY_DRAFT.(alloc := Alloc(b))) else b.led))
  }

  ghost function Deleted(b: Batch, id: nat): Batch
    requires Ranged(b) && id < |b.store|
  {
    HeldInRange(b, id);
    Watched(b.(led := C.Freed(b.led, Held(b.store)[id]), store := b.store[id := GONE]))
  }

  ghost function Copied(b: Batch, o: Object): Batch
    requires Ranged(b) && L.Distinct(KeysOf(Listed(o))) && forall s :: s in Listed(o) ==> s in Refs(b.store)
  {
    SharedOk(b, o);
    Watched(b.(led := L.ShareObject(L.Txn(b.led, L.EMPTY_DRAFT), KeysOf(Listed(o))).led, store := b.store + [o]))
  }

  ghost function Stored(b: Batch, ids: seq<nat>, skipped: set<nat>, ranges: seq<(nat, nat)>, o: Object, disk: Disk): Batch
    requires Ranged(b) && PutLegal(b, ids, skipped, ranges, o, disk)
  {
    Watched(b.(led := C.Stored(b.led, ids, skipped, ranges, KeysOf(Listed(o))), store := b.store + [o], disk := disk))
  }

  ghost function After(b: Batch, p: Step): Batch
    requires Ranged(b) && Legal(b, p)
  {
    match p
    case Begin => b.(busy := true, part := 0, crcs := [])
    case Chunk => AfterChunk(b)
    case Pass => b.(busy := false, part := 0, crcs := [], cur := b.cur + 1)
    case EndCopies => b.(phase := Switches)
    case Skip => b.(next := b.next + 1)
    case Open => Watched(Opened(b))
    case Close(at, fails) => Closed(b, at, fails)
    case Finish => Finished(b)
    case Delete(id) => Deleted(b, id)
    case Copy(o) => Copied(b, o)
    case Put(ids, skipped, ranges, o, disk) => Stored(b, ids, skipped, ranges, o, disk)
    case Pin(ids) => b.(led := R.PinAll(b.led, ids))
    case Unpin(ids) => Watched(b.(led := R.UnpinAll(b.led, ids)))
  }

  /** A switch closes by committing. */
  predicate Commit(b: Batch, p: Step) {
    p.Close? && !p.fails && Commits(b, p.at)
  }

  // ---------- the invariant ----------

  /** Copies lie in the target, sector-aligned, one behind the other, below the watermark. */
  ghost predicate Chain(made: seq<Segment>, eid: nat, wm: nat) {
    && wm % 4096 == 0
    && (forall i :: 0 <= i < |made| ==> made[i].ext == eid && made[i].off % 4096 == 0 && made[i].len > 0)
    && (forall i :: 0 <= i < |made| ==> made[i].off + Span(made[i].len) <= wm)
    && forall i, j :: 0 <= i < j < |made| ==> made[i].off + Span(made[i].len) <= made[j].off
  }

  ghost predicate Precedes(a: seq<Segment>, c: seq<Segment>) {
    forall s, s' :: s in a && s' in c ==> s.off + Span(s.len) <= s'.off
  }

  ghost predicate ItemShape(b: Batch, it: Item) {
    && |it.new_| <= |it.old_| && (it.full ==> |it.new_| == |it.old_|)
    && Chain(it.new_, b.eid, b.wm) && L.Distinct(KeysOf(it.old_))
    && (forall i :: 0 <= i < |it.new_| ==> it.new_[i] in b.made && it.new_[i].len == it.old_[i].len)
    && forall i :: 0 <= i < |it.old_| ==> it.old_[i].len > 0 && it.old_[i].ext < |b.disk|
  }

  ghost predicate PlanOk(b: Batch) {
    && Chain(b.made, b.eid, b.wm) && b.wm <= b.cap && b.next <= |b.items|
    && (forall j :: 0 <= j < |b.items| ==> ItemShape(b, b.items[j]))
    && (forall i, j :: 0 <= i < j < |b.items| ==> Precedes(b.items[i].new_, b.items[j].new_))
    && (forall j :: b.cur < j < |b.items| ==> b.items[j].new_ == [])
    && (!b.busy && b.cur < |b.items| ==> b.items[b.cur].new_ == [])
  }

  /** The checksums are those of what has been laid down so far, whole units of it. */
  ghost predicate PartLaid(b: Batch) {
    && b.part % GRID == 0 && b.eid < |b.disk| && b.wm + b.part <= |b.disk[b.eid]|
    && b.crcs == Grid(b.disk[b.eid][b.wm..b.wm + b.part])
  }

  /** What has been laid down of the current segment. */
  ghost predicate PartOk(b: Batch) {
    b.busy ==>
      && HasCurrent(b) && b.part < Current(b).len && PartLaid(b)
      && b.wm + Room(b.items[b.cur].old_[|b.items[b.cur].new_|..]) <= b.cap
  }

  /** The copies of the items that have been dealt with. */
  ghost function Placed(b: Batch): set<Segment> {
    set j, s | 0 <= j < b.next && j < |b.items| && s in b.items[j].new_ :: s
  }

  ghost predicate MadeOk(b: Batch) {
    forall s :: s in b.made ==> Fits(b.disk, s) && s.crcs == Grid(Bytes(b.disk, s))
  }

  ghost predicate RefsPlaced(b: Batch) {
    forall s :: s in Refs(b.store) && s.ext == b.eid ==> s in Placed(b)
  }

  /** Before its first commit nobody refers to the target, and no reader has pinned it. */
  ghost predicate Unused(b: Batch) {
    NoneIn(b.store, b.eid) && b.eid < |b.led.pins| && b.led.pins[b.eid] == 0
  }

  /** What holds of the target while it is the batch's. */
  ghost predicate TargetOk(b: Batch) {
    && b.eid < |b.led.bits| && b.led.bits[b.eid]
    && MadeOk(b) && RefsPlaced(b)
    && (b.commits == 0 ==> Unused(b))
  }

  ghost predicate PhaseOk(b: Batch) {
    match b.phase
    case Copies => b.ours && b.pending && b.commits == 0 && b.next == 0 && b.open.None?
    case Switches => !b.busy && (b.pending ==> b.commits == 0) && (!b.pending ==> b.commits > 0) && NoClash(b) &&
                     (b.pending && b.open.None? ==> b.ours)
    case Done => !b.busy && !b.pending && b.open.None? && (b.commits == 0 ==> !b.ours) && NoClash(b)
  }

  /** The open draft is that of the next item's switch. */
  ghost predicate OpenOk(b: Batch) {
    b.open.Some? ==>
      && L.WellFormed(b.led) && Attempts(b) && InRangeItem(b, b.items[b.next])
      && W.SwitchDraft(b.open.value, Alloc(b), NewKeys(b), OldKeys(b), |b.led.bits|)
  }

  /** The shape of a batch. Nothing that anybody does takes it away; it says nothing about the books. */
  ghost predicate Inv(b: Batch) {
    Ranged(b) && PlanOk(b) && PhaseOk(b) && PartOk(b) && OpenOk(b) && (b.ours ==> TargetOk(b))
  }

  lemma RoomLeft(segs: seq<Segment>, k: nat)
    requires k < |segs|
    ensures Room(segs[k..]) == Span(segs[k].len) + Room(segs[k + 1..])
  {
    assert segs[k..][1..] == segs[k + 1..];
  }

  lemma ChunkInRange(b: Batch)
    requires Inv(b) && CanChunk(b)
    ensures ChunkRoom(b) && b.wm + Span(Current(b).len) <= b.cap
  {
    RoomLeft(b.items[b.cur].old_, |b.items[b.cur].new_|);
    ChunkFits(b.part, Chunked(Current(b), b.part), Current(b).len);
  }

  lemma ExpandOne(e: nat)
    ensures L.Expand([(e, 1)]) == [e] && L.Expand([]) == []
  {
    assert L.Expand([(e, 1)]) == L.Span(e, 1) + L.Expand([]);
  }

  lemma ItemInRange(b: Batch, j: nat)
    requires Inv(b) && j < |b.items|
    ensures InRangeItem(b, b.items[j])
  {
    ExpandOne(b.eid);
    assert ItemShape(b, b.items[j]);
  }

  lemma HeldInRange(b: Batch, id: nat)
    requires Ranged(b) && id < |b.store|
    ensures L.InRange(b.led, Held(b.store)[id]) && R.ObjectOk(|b.led.bits|, Held(b.store)[id])
  {
    R.InRangeOk(b.led, Held(b.store)[id]);
  }

  /** What is referred to is not empty and lies, by the books, in an allocated extent. */
  lemma RefAllocated(b: Batch, s: Segment)
    requires Accounted(b) && s in Refs(b.store)
    ensures s.ext < |b.led.bits| && s.len > 0 && Books(b).bits[s.ext] && Books(b).live[s.ext] > 0
  {
    RefKey(b.store, s);
    R.KeyOk(|b.led.bits|, Held(b.store), Key(s));
    assert R.LiveAccounts(Books(b), Held(b.store), [], s.ext);
    H.BytesRemove(H.Keys(Held(b.store)), Key(s), s.ext);
  }

  /** Nobody refers to an extent that is free by the books. */
  lemma FreeMeansNone(b: Batch, e: nat)
    requires Accounted(b) && e < |b.led.bits| && !Books(b).bits[e]
    ensures NoneIn(b.store, e)
  {
    forall s | s in Refs(b.store) ensures s.ext != e {
      RefAllocated(b, s);
    }
  }

  /** The books balance exactly if the open draft can be undone. */
  lemma BooksIff(b: Batch)
    requires Ranged(b) && b.open.Some?
    ensures Accounted(b) <==> U.Balanced(b.led, b.open.value, Held(b.store), [])
  {
    U.BalancedIff(b.led, b.open.value, Held(b.store), []);
  }

  lemma SharedOk(b: Batch, o: Object)
    requires Ranged(b) && L.Distinct(KeysOf(Listed(o))) && forall s :: s in Listed(o) ==> s in Refs(b.store)
    ensures R.ObjectOk(|b.led.bits|, KeysOf(Listed(o))) && L.InRange(b.led, KeysOf(Listed(o)))
    ensures forall k :: k in KeysOf(Listed(o)) ==> k in H.Keys(Held(b.store))
  {
    var ks := KeysOf(Listed(o));
    forall j | 0 <= j < |ks| ensures ks[j] in H.Keys(Held(b.store)) && ks[j].len > 0 && ks[j].ext < |b.led.bits| {
      assert Listed(o)[j] in Listed(o);
      RefKey(b.store, Listed(o)[j]);
      R.KeyOk(|b.led.bits|, Held(b.store), ks[j]);
    }
  }

  // ---------- what a step leaves alone ----------

  /** Extents, plan and sizes are those of `b`. */
  ghost predicate SameSizes(b: Batch, b': Batch) {
    && b'.eid == b.eid && b'.cap == b.cap && |b'.disk| == |b.disk|
    && forall e :: 0 <= e < |b.disk| ==> |b'.disk[e]| == |b.disk[e]|
  }

  /** `b'` still has all copies of `b`, with their bytes. */
  ghost predicate MadeKept(b: Batch, b': Batch) {
    && SameSizes(b, b')
    && forall s :: s in b.made && Fits(b.disk, s) ==> s in b'.made && Bytes(b'.disk, s) == Bytes(b.disk, s)
  }

  lemma RefsAfterUpdate(store: seq<Object>, id: nat, o: Object, s: Segment)
    requires id < |store| && s in Refs(store[id := o])
    ensures s in Refs(store) || s in Listed(o)
  {
    var x :| x in store[id := o] && s in Listed(x);
    if x != o {
      assert x in store;
    }
  }

  lemma RefsAfterAppend(store: seq<Object>, o: Object, s: Segment)
    ensures s in Refs(store + [o]) <==> s in Refs(store) || s in Listed(o)
  {
    if s in Refs(store) {
      var x :| x in store && s in Listed(x);
      assert x in store + [o];
    }
    if s in Listed(o) {
      assert o in store + [o];
    }
    if s in Refs(store + [o]) {
      var x :| x in store + [o] && s in Listed(x);
    }
  }

  lemma HeldUpdate(store: seq<Object>, id: nat, o: Object)
    requires id < |store|
    ensures Held(store[id := o]) == Held(store)[id := KeysOf(Listed(o))]
  {
  }

  lemma HeldAppend(store: seq<Object>, o: Object)
    ensures Held(store + [o]) == Held(store) + [KeysOf(Listed(o))]
  {
  }

  lemma PlanKept(b: Batch, b': Batch)
    requires PlanOk(b) && |b'.disk| == |b.disk|
    requires b' == b.(led := b'.led, store := b'.store, disk := b'.disk, part := b'.part, crcs := b'.crcs,
                      ours := b'.ours)
    ensures PlanOk(b')
  {
    forall j | 0 <= j < |b.items| ensures ItemShape(b', b.items[j]) {
      assert ItemShape(b, b.items[j]);
    }
  }

  lemma MadeStays(b: Batch, b': Batch)
    requires MadeOk(b) && MadeKept(b, b') && b'.made == b.made
    ensures MadeOk(b')
  {
  }

  /** `b'` is `b` after a step of others. */
  ghost predicate OthersTo(b: Batch, b': Batch) {
    && Inv(b) && Ranged(b')
    && b' == b.(led := b'.led, store := b'.store, disk := b'.disk, ours := b'.ours)
    && |b'.led.bits| == |b.led.bits|
    && b'.ours == (b.ours && b'.led.bits[b.eid])
    && (b.ours ==> b'.disk[b.eid] == b.disk[b.eid] && forall s :: s in Refs(b'.store) && s.ext == b.eid ==> s in Refs(b.store))
    && (b.ours && b.commits == 0 ==> b'.ours && b'.led.pins[b.eid] == 0)
  }

  lemma OthersTarget(b: Batch, b': Batch)
    requires OthersTo(b, b') && b'.ours
    ensures TargetOk(b')
  {
    forall s | s in b.made && Fits(b.disk, s) ensures Bytes(b'.disk, s) == Bytes(b.disk, s) {
      assert s.ext == b.eid;
    }
    MadeStays(b, b');
    forall s | s in Refs(b'.store) && s.ext == b.eid ensures s in Placed(b') {
      assert s in Placed(b);
    }
  }

  lemma OthersProgress(b: Batch, b': Batch)
    requires OthersTo(b, b')
    ensures PhaseOk(b') && PartOk(b') && OpenOk(b')
  {
  }

  /** No step of others takes the shape away. */
  lemma OthersKeep(b: Batch, b': Batch)
    requires OthersTo(b, b')
    ensures Inv(b')
  {
    PlanKept(b, b');
    OthersProgress(b, b');
    if b'.ours {
      OthersTarget(b, b');
    }
  }

  // ---------- the environment ----------

  lemma UpdateOk(n: nat, store: seq<Object>, id: nat)
    requires R.ObjectsOk(n, Held(store)) && id < |store|
    ensures R.ObjectsOk(n, Held(store[id := GONE])) && Held(store[id := GONE]) == Held(store)[id := []]
  {
    HeldUpdate(store, id, GONE);
    assert KeysOf(Listed(GONE)) == [];
    var was, now := Held(store), Held(store[id := GONE]);
    forall j | 0 <= j < |store| ensures R.ObjectOk(n, now[j]) {
      assert R.ObjectOk(n, was[j]);
    }
  }

  /** A delete stays in range and adds no references. */
  lemma DeleteShape(b: Batch, id: nat)
    requires Ranged(b) && id < |b.store|
    ensures var b' := Deleted(b, id);
      && Ranged(b') && Refs(b'.store) <= Refs(b.store) && b'.led.pins == b.led.pins
      && Held(b'.store) == Held(b.store)[id := []]
  {
    HeldInRange(b, id);
    W.FreedShape(b.led, Held(b.store)[id]);
    UpdateOk(|b.led.bits|, b.store, id);
    forall s | s in Refs(Deleted(b, id).store) ensures s in Refs(b.store) {
      RefsAfterUpdate(b.store, id, GONE, s);
    }
  }

  lemma DeleteElsewhere(b: Batch, id: nat, e: nat)
    requires Ranged(b) && id < |b.store| && e < |b.led.bits| && NoneIn(b.store, e)
    ensures Deleted(b, id).led.bits[e] == b.led.bits[e]
  {
    HeldInRange(b, id);
    RefsOfObject(b.store, id);
    forall i | 0 <= i < |Listed(b.store[id])| ensures Held(b.store)[id][i].ext != e {
      assert Listed(b.store[id])[i] in Refs(b.store);
    }
    C.FreedElsewhere(b.led, Held(b.store)[id], e);
  }

  lemma DeleteKeeps(b: Batch, id: nat)
    requires Inv(b) && id < |b.store|
    ensures Inv(Deleted(b, id))
  {
    DeleteShape(b, id);
    if b.ours && b.commits == 0 {
      DeleteElsewhere(b, id, b.eid);
    }
    OthersKeep(b, Deleted(b, id));
  }

  lemma CopyShape(b: Batch, o: Object)
    requires Ranged(b) && Legal(b, Copy(o))
    ensures var b' := Copied(b, o);
      && Ranged(b') && Refs(b'.store) == Refs(b.store)
      && b'.led == b.led.(refcounts := b'.led.refcounts, shared := b'.led.shared)
      && Held(b'.store) == Held(b.store) + [KeysOf(Listed(o))]
  {
    SharedOk(b, o);
    HeldAppend(b.store, o);
    C.ShareKeepsBits(b.led, KeysOf(Listed(o)));
    R.AppendOk(|b.led.bits|, Held(b.store), KeysOf(Listed(o)));
    forall s ensures s in Refs(Copied(b, o).store) <==> s in Refs(b.store) {
      RefsAfterAppend(b.store, o, s);
    }
  }

  lemma CopyKeeps(b: Batch, o: Object)
    requires Inv(b) && Legal(b, Copy(o))
    ensures Inv(Copied(b, o))
  {
    CopyShape(b, o);
    OthersKeep(b, Copied(b, o));
  }

  lemma PinKeeps(b: Batch, ids: seq<nat>)
    requires Inv(b) && Legal(b, Pin(ids))
    ensures Inv(After(b, Pin(ids)))
  {
    if b.ours && b.commits == 0 {
      R.PinSkips(b.led, ids, b.eid);
    }
    OthersKeep(b, After(b, Pin(ids)));
  }

  lemma {:induction false} UnpinShape(s: L.Ledger, ids: seq<nat>)
    requires L.WellFormed(s) && R.UnpinLegal(s, ids)
    ensures var r := R.UnpinAll(s, ids);
      && r.live == s.live && r.shared == s.shared
      && forall e :: 0 <= e < |s.bits| ==>
           (r.bits[e] ==> s.bits[e]) && (s.bits[e] && !r.bits[e] ==> s.live[e] == 0)
    decreases |ids|
  {
    if ids != [] {
      UnpinShape(R.UnpinOne(s, ids[0]), ids[1..]);
    }
  }

  lemma UnpinKeeps(b: Batch, ids: seq<nat>)
    requires Inv(b) && Legal(b, Unpin(ids))
    ensures Inv(After(b, Unpin(ids)))
  {
    UnpinShape(b.led, ids);
    if b.ours && b.commits == 0 {
      R.UnpinSkips(b.led, ids, b.eid);
    }
    OthersKeep(b, After(b, Unpin(ids)));
  }

  /** What a put leaves alone. */
  lemma PutShape(b: Batch, ids: seq<nat>, skipped: set<nat>, ranges: seq<(nat, nat)>, o: Object, disk: Disk)
    requires Ranged(b) && PutLegal(b, ids, skipped, ranges, o, disk)
    ensures var b' := Stored(b, ids, skipped, ranges, o, disk);
      && Ranged(b') && b'.led.pins == b.led.pins && Held(b'.store) == Held(b.store) + [KeysOf(Listed(o))]
      && forall e :: 0 <= e < |b.led.bits| ==> b'.led.bits[e] == (b.led.bits[e] || e in skipped || e in ids)
  {
    var ks := KeysOf(Listed(o));
    HeldAppend(b.store, o);
    W.StoredShape(b.led, ids, skipped, ranges, ks);
    R.AppendOk(|b.led.bits|, Held(b.store), ks);
    forall s | s in Refs(b.store + [o]) ensures Fits(disk, s) {
      RefsAfterAppend(b.store, o, s);
    }
  }

  /** A write of somebody else keeps the shape, into a target that was freed as well. */
  lemma PutKeeps(b: Batch, ids: seq<nat>, skipped: set<nat>, ranges: seq<(nat, nat)>, o: Object, disk: Disk)
    requires Inv(b) && PutLegal(b, ids, skipped, ranges, o, disk)
    ensures Inv(Stored(b, ids, skipped, ranges, o, disk))
  {
    PutShape(b, ids, skipped, ranges, o, disk);
    forall s | s in Refs(b.store + [o]) ensures s in Refs(b.store) || s in Listed(o) {
      RefsAfterAppend(b.store, o, s);
    }
    OthersKeep(b, Stored(b, ids, skipped, ranges, o, disk));
  }

  // ---------- copying ----------

  lemma OverlayKeeps(disk: Disk, e: nat, at: nat, x: seq<Byte>, s: Segment)
    requires e < |disk| && at + |x| <= |disk[e]| && Fits(disk, s) && (s.ext != e || s.off + s.len <= at)
    ensures var disk' := disk[e := Overlay(disk[e], at, x)]; Fits(disk', s) && Bytes(disk', s) == Bytes(disk, s)
  {
  }

  /** What lies below the watermark, or outside the target, is not touched by a chunk. */
  lemma ChunkLeaves(b: Batch, s: Segment)
    requires ChunkRoom(b) && Fits(b.disk, s) && (s.ext != b.eid || s.off + s.len <= b.wm)
    ensures Fits(Written(b), s) && Bytes(Written(b), s) == Bytes(b.disk, s)
  {
    OverlayKeeps(b.disk, b.eid, b.wm + b.part, Padded(ChunkData(b)), s);
  }

  lemma ChunkSpares(b: Batch)
    requires Inv(b) && CanChunk(b)
    ensures ChunkRoom(b) && MadeKept(b, b.(disk := Written(b)))
    ensures forall s :: s in Refs(b.store) ==> Fits(Written(b), s) && Bytes(Written(b), s) == Bytes(b.disk, s)
  {
    ChunkInRange(b);
    forall s | s in b.made && Fits(b.disk, s) ensures Bytes(Written(b), s) == Bytes(b.disk, s) {
      ChunkLeaves(b, s);
    }
    forall s | s in Refs(b.store) ensures Fits(Written(b), s) && Bytes(Written(b), s) == Bytes(b.disk, s) {
      ChunkLeaves(b, s);
    }
  }

  lemma LaidGrows(area: seq<Byte>, wm: nat, part: nat, x: seq<Byte>)
    requires wm + part + Span(|x|) <= |area|
    ensures Overlay(area, wm + part, Padded(x))[wm..wm + part + |x|] == area[wm..wm + part] + x
  {
    var laid := Overlay(area, wm + part, Padded(x))[wm..wm + part + |x|];
    forall i | 0 <= i < |laid| ensures laid[i] == (area[wm..wm + part] + x)[i] {
    }
  }

  /** What has been laid down grows by the chunk, and its checksums by the chunk's. */
  lemma ChunkLaid(b: Batch)
    requires ChunkRoom(b) && PartLaid(b)
    ensures var n := b.part + Chunked(Current(b), b.part);
      && b.wm + n <= |Written(b)[b.eid]|
      && Written(b)[b.eid][b.wm..b.wm + n] == b.disk[b.eid][b.wm..b.wm + b.part] + ChunkData(b)
      && b.crcs + [Codecs.Checksum(ChunkData(b))] == Grid(Written(b)[b.eid][b.wm..b.wm + n])
  {
    LaidGrows(b.disk[b.eid], b.wm, b.part, ChunkData(b));
    GridAppend(b.disk[b.eid][b.wm..b.wm + b.part], ChunkData(b));
  }

  lemma MidChunkPart(b: Batch)
    requires ChunkRoom(b) && PartOk(b) && b.part + Chunked(Current(b), b.part) < Current(b).len
    ensures PartOk(AfterChunk(b))
  {
    ChunkLaid(b);
    ChunkFits(b.part, Chunked(Current(b), b.part), Current(b).len);
  }

  /** A chunk in the middle of a segment. */
  lemma MidChunkKeeps(b: Batch)
    requires Inv(b) && CanChunk(b) && b.part + Chunked(Current(b), b.part) < Current(b).len
    ensures ChunkRoom(b) && Inv(AfterChunk(b))
  {
    ChunkSpares(b);
    var b' := AfterChunk(b);
    MidChunkPart(b);
    PlanKept(b, b');
    MadeStays(b, b');
    assert Placed(b') == Placed(b);
  }

  /** The next chunk is the last of its segment. */
  predicate LastChunk(b: Batch) {
    CanChunk(b) && b.part + Chunked(Current(b), b.part) >= Current(b).len
  }

  lemma ChainGrows(made: seq<Segment>, eid: nat, wm: nat, seg: Segment)
    requires Chain(made, eid, wm) && seg.ext == eid && seg.off == wm && seg.len > 0
    ensures Chain(made + [seg], eid, wm + Span(seg.len))
  {
  }

  lemma ChainLifts(made: seq<Segment>, eid: nat, wm: nat, more: nat)
    requires Chain(made, eid, wm) && more % 4096 == 0
    ensures Chain(made, eid, wm + more)
  {
  }

  lemma CompletedShapes(b: Batch, disk: Disk, crcs: seq<nat>, j: nat)
    requires PlanOk(b) && HasCurrent(b) && |disk| == |b.disk| && j < |b.items| && Current(b).len > 0
    ensures var b' := Completed(b, disk, crcs); ItemShape(b', b'.items[j])
  {
    var b', seg := Completed(b, disk, crcs), Segment(b.eid, b.wm, Current(b).len, crcs);
    var it := b.items[j];
    assert ItemShape(b, it);
    if j == b.cur {
      ChainGrows(it.new_, b.eid, b.wm, seg);
      assert b'.items[j].new_ == it.new_ + [seg];
    } else {
      ChainLifts(it.new_, b.eid, b.wm, Span(seg.len));
    }
  }

  lemma PrecedesGrows(a: seq<Segment>, c: seq<Segment>, seg: Segment, eid: nat)
    requires Precedes(a, c) && Chain(a, eid, seg.off)
    ensures Precedes(a, c + [seg])
  {
    forall s, s' | s in a && s' in c + [seg] ensures s.off + Span(s.len) <= s'.off {
      if s' !in c {
        var i :| 0 <= i < |a| && a[i] == s;
      }
    }
  }

  lemma CompletedOrder(b: Batch, disk: Disk, crcs: seq<nat>, i: nat, j: nat)
    requires PlanOk(b) && HasCurrent(b) && i < j < |b.items|
    ensures var b' := Completed(b, disk, crcs); Precedes(b'.items[i].new_, b'.items[j].new_)
  {
    assert Precedes(b.items[i].new_, b.items[j].new_) && ItemShape(b, b.items[i]);
    if j == b.cur {
      PrecedesGrows(b.items[i].new_, b.items[j].new_, Segment(b.eid, b.wm, Current(b).len, crcs), b.eid);
    }
  }

  lemma CompletedPlan(b: Batch, disk: Disk, crcs: seq<nat>)
    requires PlanOk(b) && HasCurrent(b) && |disk| == |b.disk| && Current(b).len > 0 && b.wm + Span(Current(b).len) <= b.cap
    ensures PlanOk(Completed(b, disk, crcs))
  {
    var b', seg := Completed(b, disk, crcs), Segment(b.eid, b.wm, Current(b).len, crcs);
    ChainGrows(b.made, b.eid, b.wm, seg);
    forall j | 0 <= j < |b.items| ensures ItemShape(b', b'.items[j]) {
      CompletedShapes(b, disk, crcs, j);
    }
    forall i, j | 0 <= i < j < |b.items| ensures Precedes(b'.items[i].new_, b'.items[j].new_) {
      CompletedOrder(b, disk, crcs, i, j);
    }
  }

  /** The segment that the last chunk completes. */
  lemma LastSegment(b: Batch)
    requires LastChunk(b) && ChunkRoom(b)
    ensures b.part + Chunked(Current(b), b.part) == Current(b).len
    ensures var b' := AfterChunk(b);
      && b'.disk == Written(b)
      && b'.made == b.made + [Segment(b.eid, b.wm, Current(b).len, b.crcs + [Codecs.Checksum(ChunkData(b))])]
  {
  }

  /** The new segment carries the checksums of its bytes. */
  lemma LaidSegment(b: Batch)
    requires PartLaid(b) && LastChunk(b) && ChunkRoom(b)
    ensures var b' := AfterChunk(b);
      var seg := b'.made[|b.made|];
      Fits(b'.disk, seg) && seg.crcs == Grid(Bytes(b'.disk, seg))
  {
    LastSegment(b);
    ChunkLaid(b);
  }

  lemma LastChunkMade(b: Batch)
    requires MadeOk(b) && LastChunk(b) && ChunkRoom(b) && MadeKept(b, b.(disk := Written(b)))
    requires var seg := AfterChunk(b).made[|b.made|];
      Fits(AfterChunk(b).disk, seg) && seg.crcs == Grid(Bytes(AfterChunk(b).disk, seg))
    ensures MadeOk(AfterChunk(b))
  {
    var b' := AfterChunk(b);
    forall s | s in b'.made ensures Fits(b'.disk, s) && s.crcs == Grid(Bytes(b'.disk, s)) {
      assert s in b.made || s == b'.made[|b.made|];
    }
  }

  lemma LastChunkPart(b: Batch)
    requires Ranged(b) && PlanOk(b) && PartOk(b) && LastChunk(b) && ChunkRoom(b)
    requires b.wm + Span(Current(b).len) <= b.cap
    ensures PartOk(AfterChunk(b))
  {
    var b', it := AfterChunk(b), b.items[b.cur];
    RoomLeft(it.old_, |it.new_|);
    assert ItemShape(b, it);
    if b'.busy {
      assert b'.disk[b.eid][b'.wm..b'.wm + 0] == [];
    }
  }

  /** The last chunk of a segment: the copy is complete. */
  lemma LastChunkKeeps(b: Batch)
    requires Inv(b) && LastChunk(b)
    ensures ChunkRoom(b) && Inv(AfterChunk(b))
  {
    ChunkInRange(b);
    ChunkSpares(b);
    LaidSegment(b);
    LastChunkMade(b);
    CompletedPlan(b, Written(b), b.crcs + [Codecs.Checksum(ChunkData(b))]);
    LastChunkPart(b);
  }

  /** Copying a chunk keeps the shape: the checksums collected are those of what has been laid down. */
  lemma ChunkKeeps(b: Batch)
    requires Inv(b) && CanChunk(b)
    ensures ChunkRoom(b) && Inv(AfterChunk(b))
  {
    ChunkSpares(b);
    if LastChunk(b) {
      LastChunkKeeps(b);
    } else {
      MidChunkKeeps(b);
    }
  }

  /** What the copy loop reads is the chunk. */
  lemma ReadsChunk(b: Batch)
    requires CanChunk(b) && Fits(b.disk, Current(b))
    ensures Bytes(b.disk, Current(b))[b.part..b.part + Chunked(Current(b), b.part)] == ChunkData(b)
  {
    var s, n := Current(b), Chunked(Current(b), b.part);
    SliceOfSlice(b.disk[s.ext], s.off, s.len, b.part, n, n);
    assert ChunkData(b)[..n] == ChunkData(b);
  }

  /** The step of the batch is what the copy loop does: same bytes on disk, same checksum. */
  method RunChunk(b: Batch, areas: DataAreas) returns (crc: nat)
    requires ChunkRoom(b) && areas.areas == b.disk && Fits(b.disk, Current(b))
    requires b.part + Span(Chunked(Current(b), b.part)) <= Span(Current(b).len)
    modifies areas
    ensures areas.areas == Written(b) && crc == Codecs.Checksum(ChunkData(b))
  {
    ReadsChunk(b);
    crc := areas.CopyChunk(b.eid, b.wm, Current(b), b.part, Chunked(Current(b), b.part), 0);
  }
}
