/** The two checkpoint slots of a device, written alternately, under power failures at any point.

    The protocol is proved on what the slots decode to; the device below holds their bytes, and
    `SaveRefines` and `CrashRefines` carry every step on bytes over to the protocol. */
module Checkpoints {
  import opened Words
  import opened Buffers
  import opened Layouts
  import opened Codecs

  /** What the two slots decode to; a slot that was never written or is half written is `None`. */
  datatype Slots = Slots(a: Option<CheckpointData>, b: Option<CheckpointData>)

  function Latest(s: Slots): Option<CheckpointData> {
    match (s.a, s.b)
    case (None, b) => b
    case (a, None) => a
    case (Some(a), Some(b)) => if a.generation >= b.generation then Some(a) else Some(b)
  }

  /** One more than the larger of the valid generations. */
  function NextGeneration(s: Slots): nat {
    match (s.a, s.b)
    case (None, None) => 1
    case (Some(a), None) => a.generation + 1
    case (None, Some(b)) => b.generation + 1
    case (Some(a), Some(b)) => (if a.generation >= b.generation then a.generation else b.generation) + 1
  }

  /** Whether the next save goes to the second slot. */
  predicate WritesSecond(s: Slots) {
    match (s.a, s.b)
    case (None, _) => false
    case (_, None) => true
    case (Some(a), Some(b)) => a.generation > b.generation
  }

  function Replace(s: Slots, slot: Option<CheckpointData>): Slots {
    if WritesSecond(s) then s.(b := slot) else s.(a := slot)
  }

  /** The data of a save: its generation comes from the slots. */
  function Stamped(s: Slots, cp: CheckpointData): CheckpointData {
    cp.(generation := NextGeneration(s))
  }

  /** The data is that of `cp`: sequence number, totals and bitmap. */
  predicate DataOf(d: CheckpointData, cp: CheckpointData) {
    d.(generation := cp.generation) == cp
  }

  // ---------- the protocol ----------

  datatype Step =
    | Save(cp: CheckpointData)
    /** Power fails during the save; the slot being written decodes to `left` afterwards. */
    | Crash(cp: CheckpointData, left: Option<CheckpointData>)
    /** The checkpoint does not fit its slot; nothing is written. */
    | Refuse(cp: CheckpointData)

  function After(s: Slots, p: Step): Slots {
    match p
    case Save(cp) => Replace(s, Some(Stamped(s, cp)))
    case Crash(_, left) => Replace(s, left)
    case Refuse(_) => s
  }

  /** An interrupted write leaves the old checkpoint, the new one, or none. */
  predicate Legal(s: Slots, p: Step) {
    p.Crash? ==>
      || p.left == (if WritesSecond(s) then s.b else s.a)
      || p.left == Some(Stamped(s, p.cp))
      || p.left == None
  }

  /** Some slot can be read, and two readable slots differ in generation. */
  predicate Good(s: Slots) {
    Latest(s).Some? && (s.a.Some? && s.b.Some? ==> s.a.value.generation != s.b.value.generation)
  }

  /** What is loaded has the data of `cp` and the next generation behind `s`. */
  predicate Loads(r: Slots, s: Slots, cp: CheckpointData) {
    Latest(r).Some? && DataOf(Latest(r).value, cp) && Latest(r).value.generation == NextGeneration(s)
  }

  /** A completed save is what is loaded next, with the data that was saved; an interrupted one shows whole
      or not at all. */
  lemma StepKeepsLatest(s: Slots, p: Step)
    requires Good(s) && Legal(s, p)
    ensures var r := After(s, p);
      && Good(r)
      && (Latest(r) == Latest(s) || (Latest(r) == Some(Stamped(s, p.cp)) && Loads(r, s, p.cp)))
      && (p.Save? ==> Latest(r) == Some(Stamped(s, p.cp)) && Loads(r, s, p.cp))
  {
  }

  // ---------- runs ----------

  const NO_CHECKPOINT := CheckpointData(0, 0, 0, 0, [])

  /** What is loaded from slots of which one can be read. */
  function Newest(s: Slots): CheckpointData {
    match Latest(s)
    case Some(data) => data
    case None => NO_CHECKPOINT
  }

  ghost predicate Leads(s: Slots, p: Step, s': Slots) {
    Legal(s, p) && s' == After(s, p)
  }

  /** A run of saves, crashes and refusals: the slots before each step and at the end. */
  ghost predicate IsRun(states: seq<Slots>, run: seq<Step>) {
    && |states| == |run| + 1 && Good(states[0])
    && forall k :: 0 <= k < |run| ==> Leads(states[k], run[k], states[k + 1])
  }

  /** The checkpoint that step `i` of the run tries to write. */
  function Attempt(states: seq<Slots>, run: seq<Step>, i: nat): CheckpointData
    requires i < |run| < |states|
  {
    Stamped(states[i], run[i].cp)
  }

  lemma OneStep(s: Slots, p: Step, s': Slots)
    requires Good(s) && Leads(s, p, s')
    ensures Good(s') && (Newest(s') == Newest(s) || Newest(s') == Stamped(s, p.cp))
    ensures p.Save? ==> Newest(s') == Stamped(s, p.cp)
    ensures DataOf(Stamped(s, p.cp), p.cp)
    ensures Stamped(s, p.cp).generation == NextGeneration(s) == Newest(s).generation + 1
  {
    StepKeepsLatest(s, p);
  }

  lemma {:induction false} RunStaysGood(states: seq<Slots>, run: seq<Step>, k: nat)
    requires IsRun(states, run) && k < |states|
    ensures Good(states[k])
    decreases k
  {
    if k > 0 {
      RunStaysGood(states, run, k - 1);
      assert Leads(states[k - 1], run[k - 1], states[k - 1 + 1]);
      OneStep(states[k - 1], run[k - 1], states[k]);
    }
  }

  /** What a run shows from outside: what would be loaded before each step and at the end, and what
      each step tries to write. */
  datatype Story = Story(latest: seq<CheckpointData>, attempts: seq<CheckpointData>, saved: seq<bool>)

  ghost predicate Chapter(t: Story, k: nat)
    requires k + 1 < |t.latest| && k < |t.attempts| && k < |t.saved|
  {
    && (t.latest[k + 1] == t.latest[k] || t.latest[k + 1] == t.attempts[k])
    && (t.saved[k] ==> t.latest[k + 1] == t.attempts[k])
    && t.attempts[k].generation == t.latest[k].generation + 1
  }

  ghost predicate Sound(t: Story) {
    && |t.latest| == |t.attempts| + 1 && |t.saved| == |t.attempts|
    && forall k :: 0 <= k < |t.attempts| ==> Chapter(t, k)
  }

  ghost function Told(states: seq<Slots>, run: seq<Step>): (t: Story)
    requires |states| == |run| + 1
    ensures |t.latest| == |states| && forall k :: 0 <= k < |states| ==> t.latest[k] == Newest(states[k])
    ensures |t.attempts| == |run| && forall k :: 0 <= k < |run| ==> t.attempts[k] == Attempt(states, run, k)
    ensures |t.saved| == |run| && forall k :: 0 <= k < |run| ==> t.saved[k] == run[k].Save?
  {
    Story(seq(|states|, k requires 0 <= k < |states| => Newest(states[k])),
          seq(|run|, k requires 0 <= k < |run| => Attempt(states, run, k)),
          seq(|run|, k requires 0 <= k < |run| => run[k].Save?))
  }

  lemma StorySound(states: seq<Slots>, run: seq<Step>)
    requires IsRun(states, run)
    ensures Sound(Told(states, run))
  {
    forall k | 0 <= k < |run| ensures Chapter(Told(states, run), k) {
      RunStaysGood(states, run, k);
      assert Leads(states[k], run[k], states[k + 1]);
      OneStep(states[k], run[k], states[k + 1]);
    }
  }

  lemma {:induction false} SoundSince(t: Story, i: nat, k: nat) returns (j: nat)
    requires Sound(t) && i < k <= |t.attempts| && t.saved[i]
    ensures i <= j < k && t.latest[k] == t.attempts[j]
    ensures forall c :: j < c < k ==> !t.saved[c]
    decreases k
  {
    assert Chapter(t, k - 1);
    if t.latest[k] == t.attempts[k - 1] {
      j := k - 1;
    } else {
      j := SoundSince(t, i, k - 1);
    }
  }

  lemma {:induction false} SoundGrows(t: Story, i: nat, k: nat)
    requires Sound(t) && i <= k <= |t.attempts|
    ensures t.latest[i].generation <= t.latest[k].generation <= t.latest[i].generation + (k - i)
    decreases k
  {
    if i < k {
      SoundGrows(t, i, k - 1);
      assert Chapter(t, k - 1);
    }
  }

  lemma {:induction false} SoundFromStart(t: Story, k: nat)
    requires Sound(t) && k <= |t.attempts|
    ensures t.latest[k] == t.latest[0] || exists j :: 0 <= j < k && t.latest[k] == t.attempts[j]
    decreases k
  {
    if k > 0 {
      SoundFromStart(t, k - 1);
      assert Chapter(t, k - 1);
    }
  }

  /** After any run of saves and crashes, what is loaded is the last completed save or an attempt
      made after it: nothing older than any completed save ever comes back. */
  lemma NothingOlder(states: seq<Slots>, run: seq<Step>, i: nat) returns (j: nat)
    requires IsRun(states, run) && i < |run| && run[i].Save?
    ensures i <= j < |run| && Latest(states[|run|]).Some? && Newest(states[|run|]) == Attempt(states, run, j)
    ensures DataOf(Newest(states[|run|]), run[j].cp)
    ensures forall c :: j < c < |run| ==> !run[c].Save?
  {
    StorySound(states, run);
    var t := Told(states, run);
    j := SoundSince(t, i, |run|);
    RunStaysGood(states, run, |run|);
    forall c | j < c < |run| ensures !run[c].Save? {
      assert !t.saved[c];
    }
  }

  /** Before the first completed save, the run still shows what was there at the start, or an attempt. */
  lemma NothingLost(states: seq<Slots>, run: seq<Step>)
    requires IsRun(states, run)
    ensures Latest(states[|run|]).Some?
    ensures Newest(states[|run|]) == Newest(states[0]) ||
      exists j :: 0 <= j < |run| && Newest(states[|run|]) == Attempt(states, run, j) &&
        DataOf(Newest(states[|run|]), run[j].cp)
  {
    StorySound(states, run);
    var t := Told(states, run);
    SoundFromStart(t, |run|);
    RunStaysGood(states, run, |run|);
    if j :| 0 <= j < |run| && t.latest[|run|] == t.attempts[j] {
      assert Newest(states[|run|]) == Attempt(states, run, j);
    }
  }

  /** The generations that completed saves return strictly increase, crashes in between or not; and
      they grow by at most one a step, so 64 bits last for any run that can be carried out. */
  lemma GenerationsIncrease(states: seq<Slots>, run: seq<Step>, i: nat, k: nat)
    requires IsRun(states, run) && i < k < |run|
    ensures run[i].Save? ==> Attempt(states, run, i).generation < Attempt(states, run, k).generation
    ensures Attempt(states, run, k).generation <= Newest(states[0]).generation + k + 1
  {
    StorySound(states, run);
    var t := Told(states, run);
    SoundGrows(t, i + 1, k);
    SoundGrows(t, 0, k);
    assert Chapter(t, k) && Chapter(t, i);
  }

  // ---------- bytes ----------

  function ReadSlot(slot: seq<Byte>): Option<CheckpointData> {
    match DecodeCheckpoint(slot)
    case Ok(data) => Some(data)
    case Err(_) => None
  }

  datatype Disk = Disk(a: seq<Byte>, b: seq<Byte>) {
    function View(): Slots { Slots(ReadSlot(a), ReadSlot(b)) }
  }

  function Overwrite(d: Disk, second: bool, bytes: seq<Byte>): Disk {
    if second then d.(b := bytes) else d.(a := bytes)
  }

  /** A save on bytes, for a slot of `slotLen` bytes. */
  ghost function Written(d: Disk, cp: CheckpointData, slotLen: nat): Disk {
    if Need(cp) > slotLen then d
    else Overwrite(d, WritesSecond(d.View()), CheckpointImage(Stamped(d.View(), cp), slotLen))
  }

  function StepOf(cp: CheckpointData, slotLen: nat): Step {
    if Need(cp) > slotLen then Refuse(cp) else Save(cp)
  }

  lemma SaveRefines(d: Disk, cp: CheckpointData, slotLen: nat)
    requires CheckpointFits(cp) && NextGeneration(d.View()) < U64_LIMIT
    ensures Written(d, cp, slotLen).View() == After(d.View(), StepOf(cp, slotLen))
  {
    if Need(cp) <= slotLen {
      CheckpointRoundTrip(Stamped(d.View(), cp), slotLen);
    }
  }

  /** A write that was cut short: the slot holds its old bytes, its new bytes, or bytes that do not decode. */
  ghost predicate CutShort(d: Disk, cp: CheckpointData, left: seq<Byte>, slotLen: nat)
    requires Need(cp) <= slotLen
  {
    || left == (if WritesSecond(d.View()) then d.b else d.a)
    || left == CheckpointImage(Stamped(d.View(), cp), slotLen)
    || DecodeCheckpoint(left).Err?
  }

  lemma CrashRefines(d: Disk, cp: CheckpointData, left: seq<Byte>, slotLen: nat)
    requires CheckpointFits(cp) && NextGeneration(d.View()) < U64_LIMIT && Need(cp) <= slotLen
    requires CutShort(d, cp, left, slotLen)
    ensures Legal(d.View(), Crash(cp, ReadSlot(left)))
    ensures Overwrite(d, WritesSecond(d.View()), left).View() == After(d.View(), Crash(cp, ReadSlot(left)))
  {
    CheckpointRoundTrip(Stamped(d.View(), cp), slotLen);
  }

  // ---------- the device ----------

  class Device {
    const slotLen: nat
    var first: seq<Byte>
    var second: seq<Byte>

    ghost predicate Valid()
      reads this
    {
      |first| == |second| == slotLen
    }

    function Contents(): Disk
      reads this
    {
      Disk(first, second)
    }

    /** A device with arbitrary old contents. */
    constructor (slotLen: nat, first: seq<Byte>, second: seq<Byte>)
      requires |first| == |second| == slotLen
      ensures Valid() && this.slotLen == slotLen && Contents() == Disk(first, second)
    {
      this.slotLen, this.first, this.second := slotLen, first, second;
    }

    /** The checkpoint part of initialization: both slots are wiped before the first checkpoint is
        written, so nothing that an earlier use of the device left behind can be read again. */
    method Format(bitmapBytes: nat) returns (r: Result<(), CodecError>)
      requires Valid() && bitmapBytes < U32_LIMIT
      modifies this
      ensures Valid()
      ensures r.Ok? <==> CP_HEADER + bitmapBytes + 4 <= slotLen
      ensures Contents().View() == Slots(if r.Ok? then Some(EmptyCheckpoint(bitmapBytes)) else None, None)
      ensures r.Ok? ==> Good(Contents().View()) && IsEmpty(Newest(Contents().View()), bitmapBytes)
    {
      first := Zeroed(slotLen);
      second := Zeroed(slotLen);
      ZerosDoNotDecode(slotLen);
      var image := EncodeCheckpoint(EmptyCheckpoint(bitmapBytes), slotLen);
      if image.Err? {
        return Err(image.error);
      }
      first := image.value;
      CheckpointRoundTrip(EmptyCheckpoint(bitmapBytes), slotLen);
      r := Ok(());
    }

    method LoadLatest() returns (r: Option<CheckpointData>)
      ensures r == Latest(Contents().View())
    {
      var a, b := ReadSlot(first), ReadSlot(second);
      r := Newer(a, b);
    }

    static method Newer(a: Option<CheckpointData>, b: Option<CheckpointData>) returns (r: Option<CheckpointData>)
      ensures r == Latest(Slots(a, b))
    {
      if a.None? && b.None? {
        r := None;
      } else if b.None? {
        r := a;
      } else if a.None? {
        r := b;
      } else if a.value.generation >= b.value.generation {
        r := a;
      } else {
        r := b;
      }
    }

    /** The generation and the slot of the next save. */
    static method Choose(a: Option<CheckpointData>, b: Option<CheckpointData>) returns (newGen: nat, toSecond: bool)
      ensures newGen == NextGeneration(Slots(a, b)) && toSecond == WritesSecond(Slots(a, b))
    {
      var maxGen := 0;
      if a.Some? {
        maxGen := a.value.generation;
      }
      if b.Some? && b.value.generation > maxGen {
        maxGen := b.value.generation;
      }
      newGen := maxGen + 1;
      if a.None? {
        toSecond := false;
      } else if b.None? {
        toSecond := true;
      } else {
        toSecond := !(a.value.generation <= b.value.generation);
      }
    }

    method Save(cp: CheckpointData) returns (r: Result<nat, CodecError>)
      requires Valid()
      modifies this
      ensures Valid()
      ensures r == if Need(cp) <= slotLen then Ok(NextGeneration(old(Contents().View()))) else Err(SlotTooSmall)
      ensures Contents() == Written(old(Contents()), cp, slotLen)
      ensures r.Ok? && Good(old(Contents().View())) && CheckpointFits(cp) && r.value < U64_LIMIT ==>
        Latest(Contents().View()) == Some(cp.(generation := r.value)) && r.value > Newest(old(Contents().View())).generation
    {
      var newGen, toSecond := Choose(ReadSlot(first), ReadSlot(second));
      var image := EncodeCheckpoint(cp.(generation := newGen), slotLen);
      if image.Err? {
        return Err(image.error);
      }
      if toSecond {
        second := image.value;
      } else {
        first := image.value;
      }
      r := Ok(newGen);
      if CheckpointFits(cp) && newGen < U64_LIMIT {
        SaveRefines(old(Contents()), cp, slotLen);
      }
    }
  }

  function EmptyCheckpoint(bitmapBytes: nat): CheckpointData {
    CheckpointData(1, 0, 0, 0, Zeroed(bitmapBytes))
  }

  /** Generation one, nothing counted, and a bitmap of clear bits. */
  predicate IsEmpty(d: CheckpointData, bitmapBytes: nat) {
    && d.generation == 1 && d.seqNo == 0 && d.totalAlloc == 0 && d.totalFree == 0 && |d.bitmap| == bitmapBytes
    && forall i, k :: 0 <= i < |d.bitmap| && 0 <= k < 8 ==> !d.bitmap[i][k]
  }

  /** A layout whose bitmap ends in one of twelve places has no room for any checkpoint: formatting
      such a device fails, and so would every save. */
  lemma UnsavableLayouts(n: nat, cp: CheckpointData)
    requires |cp.bitmap| == BitmapBytes(n)
    ensures Need(cp) > SlotLen(n) <==> 4045 <= BitmapBytes(n) % 4096 <= 4056
  {
    CheckpointFitsSlot(n);
  }

  /** Such layouts are accepted: the device with exactly `n` extents, for each of those counts. */
  method UnsavableDevice(n: nat, extentSize: nat, cp: CheckpointData) returns (capacity: nat, layout: Layout)
    requires 1 <= n <= MAX_EXTENTS && 4045 <= BitmapBytes(n) % 4096 <= 4056
    requires MIN_EXTENT_SIZE <= extentSize <= MAX_EXTENT_SIZE && extentSize % SECTOR_SIZE == 0
    ensures capacity == DataStart(n) + n * extentSize && layout == LayoutFor(capacity, n)
    ensures |cp.bitmap| == layout.bitmapBytes ==> Need(cp) > layout.checkpointLen
  {
    capacity := DataStart(n) + n * extentSize;
    DeviceFor(n, extentSize);
    Products(n, MAX_EXTENTS, extentSize);
    Products(extentSize, MAX_EXTENT_SIZE, MAX_EXTENTS);
    var r := ComputeLayout(capacity, extentSize);
    layout := r.value;
    CheckpointFitsSlot(n);
  }

  /** The smallest: 32353 extents of 1 MiB have a bitmap of 4045 bytes. */
  lemma DeviceWithoutCheckpoints(cp: CheckpointData)
    requires |cp.bitmap| == BitmapBytes(32353)
    ensures var capacity := RESERVED_REGION_END + 8192 + 32353 * 1048576;
      FixedPoint(capacity, 1048576, 32353) && LayoutFor(capacity, 32353).checkpointLen == 4096 && Need(cp) == 4097
  {
    DeviceFor(32353, 1048576);
  }
}
