/** Device layout: how a capacity is cut into the reserved region, two checkpoint slots and extents. */
module Layouts {
  import opened Words
  import opened Numbers

  const SECTOR_SIZE: nat := 4096
  const RESERVED_REGION_END: nat := 1048576
  const MIN_EXTENT_SIZE: nat := 1048576
  const MAX_EXTENT_SIZE: nat := 16777216
  const MAX_EXTENTS: nat := 16777216

  // ---------- align_up ----------

  /** `a & !b`, bit by bit. */
  function AndNot(a: seq<bool>, b: seq<bool>): (r: seq<bool>)
    requires |a| == |b|
    ensures |r| == |a|
  {
    seq(|a|, i requires 0 <= i < |a| => a[i] && !b[i])
  }

  /** `(v + align - 1) & !(align - 1)` on words of `width` bits. */
  function AlignUp(v: nat, align: nat, width: nat): nat
    requires align > 0
  {
    FromBits(AndNot(ToBits(v + align - 1, width), ToBits(align - 1, width)))
  }

  lemma {:induction false} Pow2Positive(k: nat)
    ensures Pow2(k) > 0
  {
    if k > 0 {
      Pow2Positive(k - 1);
    }
  }

  /** Masking with a power of two less one leaves the largest multiple below. */
  lemma {:induction false} MaskRoundsDown(x: nat, k: nat, n: nat) returns (q: nat)
    requires x < Pow2(n) && k <= n && Pow2(k) > 0
    ensures var r := FromBits(AndNot(ToBits(x, n), ToBits(Pow2(k) - 1, n)));
      r == Shifted(q, k) && r <= x < r + Pow2(k)
    decreases n
  {
    if k == 0 {
      MaskNothing(x, n);
      q := x;
    } else {
      Pow2Positive(k - 1);
      q := MaskRoundsDown(x / 2, k - 1, n - 1);
      MaskStep(x, Pow2(k - 1), n);
    }
  }

  /** `q << k`. */
  function Shifted(q: nat, k: nat): nat {
    if k == 0 then q else 2 * Shifted(q, k - 1)
  }

  lemma {:induction false} ShiftedIsMultiple(q: nat, k: nat)
    ensures Shifted(q, k) == q * Pow2(k)
  {
    if k > 0 {
      ShiftedIsMultiple(q, k - 1);
      TimesTwo(q, Pow2(k - 1));
    }
  }

  lemma TimesTwo(q: nat, p: nat)
    ensures q * (2 * p) == 2 * (q * p)
  {
  }

  lemma MaskNothing(x: nat, n: nat)
    requires x < Pow2(n)
    ensures FromBits(AndNot(ToBits(x, n), ToBits(0, n))) == x
  {
    ZeroHasNoBits(n);
    assert AndNot(ToBits(x, n), ToBits(0, n)) == ToBits(x, n);
    BitsRoundTrip(x, n);
  }

  lemma MaskStep(x: nat, half: nat, n: nat)
    requires half > 0 && n > 0
    ensures FromBits(AndNot(ToBits(x, n), ToBits(2 * half - 1, n))) ==
      2 * FromBits(AndNot(ToBits(x / 2, n - 1), ToBits(half - 1, n - 1)))
  {
    var a, b := ToBits(x, n), ToBits(2 * half - 1, n);
    var a', b' := ToBits(x / 2, n - 1), ToBits(half - 1, n - 1);
    assert (2 * half - 1) / 2 == half - 1;
    assert a[1..] == a' && b[1..] == b' && b[0];
    assert AndNot(a, b)[1..] == AndNot(a', b') && !AndNot(a, b)[0];
  }

  lemma {:induction false} ZeroHasNoBits(n: nat)
    ensures forall i :: 0 <= i < n ==> !ToBits(0, n)[i]
  {
    if n > 0 {
      ZeroHasNoBits(n - 1);
    }
  }

  /** For a power of two, the result is the least multiple at or above `v`. */
  lemma AlignUpRounds(v: nat, k: nat, width: nat) returns (q: nat)
    requires k <= width && Pow2(k) > 0 && v + Pow2(k) - 1 < Pow2(width)
    ensures AlignUp(v, Pow2(k), width) == q * Pow2(k)
    ensures v <= q * Pow2(k) < v + Pow2(k)
  {
    q := MaskRoundsDown(v + Pow2(k) - 1, k, width);
    ShiftedIsMultiple(q, k);
  }

  lemma SectorAlign(v: nat, k: nat, width: nat)
    requires Pow2(k) == SECTOR_SIZE && k <= width && v + 4095 < Pow2(width)
    ensures AlignUp(v, SECTOR_SIZE, width) == (v + 4095) / 4096 * 4096
  {
    var q := AlignUpRounds(v, k, width);
    assert q == (v + 4095) / 4096;
  }

  // ---------- compute_layout ----------

  datatype LayoutError = BadExtentSize | UnalignedExtentSize | DeviceTooSmall | NoRoomForSlots | BadExtentCount

  datatype Layout = Layout(
    checkpointOffset: nat, checkpointLen: nat, dataStart: nat, dataEnd: nat, extentCount: nat, bitmapBytes: nat)

  function BitmapBytes(n: nat): nat {
    (n + 7) / 8
  }

  /** The length of one checkpoint slot: 40 bytes and the bitmap, rounded up to sectors. */
  function SlotLen(n: nat): nat {
    (40 + BitmapBytes(n) + 4095) / 4096 * 4096
  }

  function DataStart(n: nat): nat {
    RESERVED_REGION_END + 2 * SlotLen(n)
  }

  /** How many extents fit behind slots that are laid out for `n` extents. */
  function Fitting(capacity: nat, extentSize: nat, n: nat): nat
    requires extentSize > 0 && DataStart(n) <= capacity
  {
    Quot(capacity - DataStart(n), extentSize)
  }

  /** The first estimate, before any room is set aside for the slots. */
  function Estimate(capacity: nat, extentSize: nat): nat
    requires extentSize > 0 && capacity >= RESERVED_REGION_END
  {
    Quot(capacity - RESERVED_REGION_END, extentSize)
  }

  /** The largest extent count whose slot is `sectors` sectors long. */
  function SlotBoundary(sectors: nat): int {
    32768 * sectors - 320
  }

  /** The capacities for which no extent count is a fixed point: with slots of `sectors` sectors one
      extent more than the slots cover would fit, and with slots one sector longer it would not. */
  predicate NoFixedPoint(capacity: nat, extentSize: nat, sectors: nat) {
    var need := (SlotBoundary(sectors) + 1) * extentSize + RESERVED_REGION_END + 8192 * sectors;
    sectors > 0 && need <= capacity < need + 8192
  }

  method SlotFor(n: nat) returns (slot: nat)
    requires 40 + BitmapBytes(n) + 4095 < U64_LIMIT
    ensures slot == SlotLen(n)
  {
    slot := AlignUp(40 + BitmapBytes(n), SECTOR_SIZE, 64);
    assert Pow2(12) == SECTOR_SIZE;
    Pow2Values();
    SectorAlign(40 + BitmapBytes(n), 12, 64);
  }

  // ---------- division ----------

  lemma DivAtLeast(x: nat, d: nat, q: int)
    requires d > 0 && q * d <= x
    ensures Quot(x, d) >= q
  {
    QuotBounds(x, d);
    if Quot(x, d) < q {
      ProductGrows(Quot(x, d) + 1, q, d);
    }
  }

  lemma DivBelow(x: nat, d: nat, q: int)
    requires d > 0 && x < q * d
    ensures Quot(x, d) < q
  {
    QuotBounds(x, d);
    if Quot(x, d) >= q {
      ProductGrows(q, Quot(x, d), d);
    }
  }

  lemma Distributes(a: int, b: int, d: int)
    ensures (a - b) * d == a * d - b * d
  {
  }

  lemma DivMonotone(x: nat, y: nat, d: nat)
    requires d > 0 && x <= y
    ensures Quot(x, d) <= Quot(y, d)
  {
    QuotBounds(x, d);
    DivAtLeast(y, d, Quot(x, d));
  }

  /** Taking less than one divisor away costs at most one. */
  lemma DivDropsOne(x: nat, y: nat, d: nat)
    requires d > 0 && x <= y < x + d
    ensures Quot(y, d) <= Quot(x, d) + 1
  {
    QuotBounds(x, d);
    var q := Quot(x, d);
    assert (q + 2) * d == (q + 1) * d + d;
    DivBelow(y, d, q + 2);
  }

  // ---------- the iteration ----------

  lemma MoreExtentsFewerFit(capacity: nat, extentSize: nat, a: nat, b: nat)
    requires extentSize > 0 && a <= b && DataStart(b) <= capacity
    ensures DataStart(a) <= capacity
    ensures Fitting(capacity, extentSize, b) <= Fitting(capacity, extentSize, a)
    ensures Fitting(capacity, extentSize, a) <= Estimate(capacity, extentSize)
  {
    DivMonotone(capacity - DataStart(b), capacity - DataStart(a), extentSize);
    DivMonotone(capacity - DataStart(a), capacity - RESERVED_REGION_END, extentSize);
  }

  /** Counts at most 32768 apart differ by at most one sector per slot, hence by at most one extent. */
  lemma NearCountsFitNearly(capacity: nat, extentSize: nat, a: nat, b: nat)
    requires extentSize >= MIN_EXTENT_SIZE && a <= b <= a + 32768 && DataStart(b) <= capacity
    ensures DataStart(a) <= capacity
    ensures SlotLen(a) == SlotLen(b) || SlotLen(a) + 4096 == SlotLen(b)
    ensures Fitting(capacity, extentSize, a) <= Fitting(capacity, extentSize, b) + 1
  {
    DivDropsOne(capacity - DataStart(b), capacity - DataStart(a), extentSize);
  }

  /** Room for the slots costs at most one extent in a million, and one more. */
  lemma EstimateIsClose(capacity: nat, extentSize: nat)
    requires extentSize >= MIN_EXTENT_SIZE && capacity >= RESERVED_REGION_END
    requires DataStart(Estimate(capacity, extentSize)) <= capacity
    ensures var n := Estimate(capacity, extentSize);
      n <= Fitting(capacity, extentSize, n) + n / 1048576 + 2
  {
    var n := Estimate(capacity, extentSize);
    var x, d := capacity - RESERVED_REGION_END, extentSize;
    var q := n / 1048576 + 2;
    assert 2 * SlotLen(n) <= q * 1048576;
    ProductGrows(1048576, d, q);
    Distributes(n, q, d);
    QuotBounds(x, d);
    DivAtLeast(x - 2 * SlotLen(n), d, n as int - q);
  }

  predicate FixedPoint(capacity: nat, extentSize: nat, n: nat)
    requires extentSize > 0
  {
    DataStart(n) < capacity && Fitting(capacity, extentSize, n) == n
  }

  lemma FixedPointIsUnique(capacity: nat, extentSize: nat, a: nat, b: nat)
    requires extentSize > 0 && FixedPoint(capacity, extentSize, a) && FixedPoint(capacity, extentSize, b)
    ensures a == b
  {
    MoreExtentsFewerFit(capacity, extentSize, if a < b then a else b, if a < b then b else a);
  }

  lemma SlotOf(n: nat, sectors: nat)
    requires sectors > 0
    ensures n <= SlotBoundary(sectors) ==> SlotLen(n) <= 4096 * sectors
    ensures n > SlotBoundary(sectors) ==> SlotLen(n) >= 4096 * (sectors + 1)
  {
  }

  lemma NoFixedPointMeansNone(capacity: nat, extentSize: nat, sectors: nat, n: nat)
    requires extentSize > 0 && NoFixedPoint(capacity, extentSize, sectors)
    ensures !FixedPoint(capacity, extentSize, n)
  {
    var b := SlotBoundary(sectors);
    SlotOf(n, sectors);
    if DataStart(n) < capacity {
      if n <= b {
        DivAtLeast(capacity - DataStart(n), extentSize, b + 1);
      } else {
        DivBelow(capacity - DataStart(n), extentSize, b + 1);
      }
    }
  }

  /** Two counts that lead to each other straddle a slot boundary. */
  lemma OscillationMeansNone(capacity: nat, extentSize: nat, n: nat) returns (sectors: nat)
    requires extentSize > 0 && DataStart(n + 1) <= capacity
    requires Fitting(capacity, extentSize, n) == n + 1 && Fitting(capacity, extentSize, n + 1) == n
    ensures NoFixedPoint(capacity, extentSize, sectors) && n == SlotBoundary(sectors)
  {
    sectors := SlotLen(n) / 4096;
    var d := extentSize;
    assert SlotLen(n) != SlotLen(n + 1);
    assert n == SlotBoundary(sectors);
    var x, y := capacity - DataStart(n), capacity - DataStart(n + 1);
    QuotBounds(x, d);
    QuotBounds(y, d);
  }

  function LayoutFor(capacity: nat, n: nat): Layout {
    Layout(RESERVED_REGION_END, SlotLen(n), DataStart(n), capacity, n, BitmapBytes(n))
  }

  predicate ArgumentsOk(capacity: nat, extentSize: nat) {
    && MIN_EXTENT_SIZE <= extentSize <= MAX_EXTENT_SIZE && extentSize % SECTOR_SIZE == 0
    && capacity > RESERVED_REGION_END
  }

  /** The counts that the iteration can reach: the first estimate, the smallest count `low` that
      it leads to, what fits for `low`, and what fits for `low + 1`. */
  datatype Orbit = Orbit(start: nat, low: nat, up: nat, back: nat) {
    /** What the first `moves` passes leave behind. */
    predicate At(n: nat, moves: nat) {
      if moves == 0 then n == start else
        && low <= n <= start
        && (start < 1073741824 ==>
            && n == (if moves % 2 == 1 then low else low + 1)
            && (moves > 1 ==> up == low + 1) && (moves > 2 ==> back == low))
    }

    /** `n2` is what fits for `n`. */
    predicate Leads(n: nat, n2: nat) {
      && low <= n2 <= start
      && (n == start ==> n2 == low) && (n == low ==> n2 == up) && (n == low + 1 ==> n2 == back)
    }

    predicate Close() {
      && low <= up && low <= start
      && (start < 1073741824 ==> up <= low + 1)
      && (low < start ==> low <= back <= up)
      && start <= low + start / 1048576 + 2
    }

    lemma Move(n: nat, n2: nat, moves: nat)
      requires Close() && At(n, moves) && Leads(n, n2) && n2 != n
      ensures At(n2, moves + 1)
    {
    }
  }

  function OrbitOf(capacity: nat, extentSize: nat): Orbit
    requires extentSize > 0 && capacity >= RESERVED_REGION_END
  {
    var start := Estimate(capacity, extentSize);
    var low := FittingOrZero(capacity, extentSize, start);
    Orbit(start, low, FittingOrZero(capacity, extentSize, low), FittingOrZero(capacity, extentSize, low + 1))
  }

  function FittingOrZero(capacity: nat, extentSize: nat, n: nat): nat
    requires extentSize > 0
  {
    if DataStart(n) <= capacity then Fitting(capacity, extentSize, n) else 0
  }

  lemma OrbitIsClose(capacity: nat, extentSize: nat)
    requires ArgumentsOk(capacity, extentSize) && DataStart(Estimate(capacity, extentSize)) < capacity
    ensures OrbitOf(capacity, extentSize).Close()
  {
    var o := OrbitOf(capacity, extentSize);
    EstimateIsClose(capacity, extentSize);
    MoreExtentsFewerFit(capacity, extentSize, o.start, o.start);
    MoreExtentsFewerFit(capacity, extentSize, o.low, o.start);
    if o.start < 1073741824 {
      NearCountsFitNearly(capacity, extentSize, o.low, o.start);
    }
    if o.low < o.start {
      MoreExtentsFewerFit(capacity, extentSize, o.low + 1, o.start);
      MoreExtentsFewerFit(capacity, extentSize, o.low, o.low + 1);
    }
  }

  lemma FittingLeads(capacity: nat, extentSize: nat, n: nat)
    requires ArgumentsOk(capacity, extentSize) && DataStart(Estimate(capacity, extentSize)) < capacity
    requires n <= Estimate(capacity, extentSize)
    ensures DataStart(n) < capacity
    ensures OrbitOf(capacity, extentSize).Leads(n, Fitting(capacity, extentSize, n))
  {
    MoreExtentsFewerFit(capacity, extentSize, n, Estimate(capacity, extentSize));
  }

  /** Four moves without coming to rest: the last two counts lead to each other for ever. */
  lemma FourMovesOscillate(capacity: nat, extentSize: nat, n: nat)
    requires ArgumentsOk(capacity, extentSize) && DataStart(Estimate(capacity, extentSize)) < capacity
    requires OrbitOf(capacity, extentSize).At(n, 4) && OrbitOf(capacity, extentSize).start < 1073741824
    ensures exists sectors :: NoFixedPoint(capacity, extentSize, sectors) && n == SlotBoundary(sectors) + 1
    ensures DataStart(n) < capacity && Fitting(capacity, extentSize, n) == n - 1
  {
    var o := OrbitOf(capacity, extentSize);
    OrbitIsClose(capacity, extentSize);
    FittingLeads(capacity, extentSize, n);
    FittingLeads(capacity, extentSize, n - 1);
    var sectors := OscillationMeansNone(capacity, extentSize, n - 1);
  }

  /** A fixed point is among the counts that the iteration can reach. */
  lemma FixedPointIsInOrbit(capacity: nat, extentSize: nat, m: nat)
    requires ArgumentsOk(capacity, extentSize) && DataStart(Estimate(capacity, extentSize)) < capacity
    requires FixedPoint(capacity, extentSize, m)
    ensures OrbitOf(capacity, extentSize).low <= m
  {
    MoreExtentsFewerFit(capacity, extentSize, m, m);
    MoreExtentsFewerFit(capacity, extentSize, m, Estimate(capacity, extentSize));
  }

  method ComputeLayout(capacity: nat, extentSize: nat) returns (r: Result<Layout, LayoutError>)
    requires capacity < U64_LIMIT
    ensures r.Ok? ==> ArgumentsOk(capacity, extentSize) && r.value == LayoutFor(capacity, r.value.extentCount)
    ensures r.Ok? ==> 1 <= r.value.extentCount <= MAX_EXTENTS && r.value.dataStart < capacity
    // The count is what fits, unless nothing is; then it is one too many.
    ensures r.Ok? && FixedPoint(capacity, extentSize, r.value.extentCount) ==>
      !exists sectors :: NoFixedPoint(capacity, extentSize, sectors)
    ensures r.Ok? && !FixedPoint(capacity, extentSize, r.value.extentCount) ==>
      && Fitting(capacity, extentSize, r.value.extentCount) == r.value.extentCount - 1
      && exists sectors :: NoFixedPoint(capacity, extentSize, sectors) && r.value.extentCount == SlotBoundary(sectors) + 1
    ensures r == Err(BadExtentSize) <==> !(MIN_EXTENT_SIZE <= extentSize <= MAX_EXTENT_SIZE)
    ensures r == Err(UnalignedExtentSize) <==>
      MIN_EXTENT_SIZE <= extentSize <= MAX_EXTENT_SIZE && extentSize % SECTOR_SIZE != 0
    ensures r == Err(DeviceTooSmall) <==>
      && MIN_EXTENT_SIZE <= extentSize <= MAX_EXTENT_SIZE && extentSize % SECTOR_SIZE == 0
      && capacity <= RESERVED_REGION_END
    ensures r == Err(NoRoomForSlots) <==>
      ArgumentsOk(capacity, extentSize) && DataStart(Estimate(capacity, extentSize)) >= capacity
    ensures r == Err(BadExtentCount) <==>
      && ArgumentsOk(capacity, extentSize) && DataStart(Estimate(capacity, extentSize)) < capacity
      && !Holds(capacity, extentSize)
    ensures ArgumentsOk(capacity, extentSize) && DataStart(Estimate(capacity, extentSize)) < capacity ==>
      forall m :: 1 <= m <= MAX_EXTENTS && FixedPoint(capacity, extentSize, m) ==> r == Ok(LayoutFor(capacity, m))
  {
    if extentSize < MIN_EXTENT_SIZE || extentSize > MAX_EXTENT_SIZE {
      return Err(BadExtentSize);
    }
    if extentSize % SECTOR_SIZE != 0 {
      return Err(UnalignedExtentSize);
    }
    if capacity <= RESERVED_REGION_END {
      return Err(DeviceTooSmall);
    }
    var count := SettleCount(capacity, extentSize);
    if count.Err? {
      return Err(count.error);
    }
    var n := count.value;
    VerdictCounts(capacity, extentSize, n);
    if n == 0 || n > MAX_EXTENTS {
      return Err(BadExtentCount);
    }
    SlotIsSmall(capacity, extentSize, n);
    var slot := SlotFor(n);
    r := Ok(Layout(RESERVED_REGION_END, slot, RESERVED_REGION_END + 2 * slot, capacity, n, (n + 7) / 8));
  }

  lemma SlotIsSmall(capacity: nat, extentSize: nat, n: nat)
    requires ArgumentsOk(capacity, extentSize) && n <= Estimate(capacity, extentSize)
    ensures 40 + BitmapBytes(n) + 4095 < capacity
  {
    var x, q := capacity - RESERVED_REGION_END, Estimate(capacity, extentSize);
    QuotBounds(x, extentSize);
    assert q * 1048576 <= q * extentSize;
  }

  /** The loop: at most four passes, each replacing the count by what fits behind its slots. */
  method SettleCount(capacity: nat, extentSize: nat) returns (r: Result<nat, LayoutError>)
    requires capacity < U64_LIMIT && ArgumentsOk(capacity, extentSize)
    ensures r.Err? <==> DataStart(Estimate(capacity, extentSize)) >= capacity
    ensures r.Err? ==> r.error == NoRoomForSlots
    ensures r.Ok? ==> r.value <= Estimate(capacity, extentSize) && Verdict(capacity, extentSize, r.value)
  {
    var n: nat := Quot(capacity - RESERVED_REGION_END, extentSize);
    ghost var o := OrbitOf(capacity, extentSize);
    ghost var settled := false;
    for i := 0 to 4
      invariant !settled && o.At(n, i) && n <= o.start
      invariant i > 0 ==> DataStart(o.start) < capacity
    {
      SlotIsSmall(capacity, extentSize, n);
      var pass := Pass(capacity, extentSize, n);
      SlotLenGrows(n, o.start);
      if pass.Err? {
        return pass;
      }
      var n2 := pass.value;
      if n2 == n {
        settled := true;
        break;
      }
      PassMoves(capacity, extentSize, n, i);
      n := n2;
    }
    LayoutVerdict(capacity, extentSize, n, settled);
    r := Ok(n);
  }

  method Pass(capacity: nat, extentSize: nat, n: nat) returns (r: Result<nat, LayoutError>)
    requires capacity < U64_LIMIT && extentSize > 0 && 40 + BitmapBytes(n) + 4095 < capacity
    ensures r.Err? ==> DataStart(n) >= capacity && r.error == NoRoomForSlots
    ensures r.Ok? ==> DataStart(n) < capacity && r.value == Fitting(capacity, extentSize, n)
  {
    var slot := SlotFor(n);
    var dataStart := RESERVED_REGION_END + 2 * slot;
    if dataStart >= capacity {
      return Err(NoRoomForSlots);
    }
    r := Ok(Quot(capacity - dataStart, extentSize));
  }

  lemma SlotLenGrows(a: nat, b: nat)
    requires a <= b
    ensures SlotLen(a) <= SlotLen(b)
  {
  }

  /** One pass that moves the count. */
  lemma PassMoves(capacity: nat, extentSize: nat, n: nat, moves: nat)
    requires ArgumentsOk(capacity, extentSize) && n <= Estimate(capacity, extentSize)
    requires OrbitOf(capacity, extentSize).At(n, moves)
    requires DataStart(n) < capacity && Fitting(capacity, extentSize, n) != n
    requires DataStart(Estimate(capacity, extentSize)) < capacity
    ensures OrbitOf(capacity, extentSize).At(Fitting(capacity, extentSize, n), moves + 1)
    ensures Fitting(capacity, extentSize, n) <= Estimate(capacity, extentSize)
  {
    OrbitIsClose(capacity, extentSize);
    FittingLeads(capacity, extentSize, n);
    OrbitOf(capacity, extentSize).Move(n, Fitting(capacity, extentSize, n), moves);
  }

  ghost predicate Verdict(capacity: nat, extentSize: nat, n: nat)
    requires ArgumentsOk(capacity, extentSize)
  {
    && (FixedPoint(capacity, extentSize, n) ==> !exists sectors :: NoFixedPoint(capacity, extentSize, sectors))
    && (!FixedPoint(capacity, extentSize, n) && n <= MAX_EXTENTS ==>
        && DataStart(n) < capacity && Fitting(capacity, extentSize, n) == n - 1
        && exists sectors :: NoFixedPoint(capacity, extentSize, sectors) && n == SlotBoundary(sectors) + 1)
    && (n == 0 || n > MAX_EXTENTS ==>
        && (forall m :: 1 <= m <= MAX_EXTENTS ==> !FixedPoint(capacity, extentSize, m))
        && forall sectors :: NoFixedPoint(capacity, extentSize, sectors) ==> SlotBoundary(sectors) >= MAX_EXTENTS)
  }

  lemma VerdictCounts(capacity: nat, extentSize: nat, n: nat)
    requires ArgumentsOk(capacity, extentSize) && Verdict(capacity, extentSize, n)
    ensures 1 <= n <= MAX_EXTENTS <==> Holds(capacity, extentSize)
    ensures 1 <= n <= MAX_EXTENTS ==> forall m :: FixedPoint(capacity, extentSize, m) ==> m == n
  {
    HoldsIff(capacity, extentSize);
    if 1 <= n <= MAX_EXTENTS {
      forall m | FixedPoint(capacity, extentSize, m) ensures m == n {
        if FixedPoint(capacity, extentSize, n) {
          FixedPointIsUnique(capacity, extentSize, m, n);
        } else {
          var sectors :| NoFixedPoint(capacity, extentSize, sectors) && n == SlotBoundary(sectors) + 1;
          NoFixedPointMeansNone(capacity, extentSize, sectors, m);
        }
      }
    }
  }

  // ---------- which devices have an extent count ----------

  /** The capacities between the smallest device with one extent and the largest with as many as allowed. */
  predicate Holds(capacity: nat, extentSize: nat) {
    DataStart(1) + extentSize <= capacity < DataStart(MAX_EXTENTS) + (MAX_EXTENTS + 1) * extentSize
  }

  /** A count up to `top` that the iteration accepts. */
  ghost predicate Accepts(capacity: nat, extentSize: nat, top: nat)
    requires extentSize > 0
  {
    || (exists m :: 1 <= m <= top && FixedPoint(capacity, extentSize, m))
    || exists sectors :: NoFixedPoint(capacity, extentSize, sectors) && SlotBoundary(sectors) < top
  }

  /** Between the capacities for `top - 1` and for `top` extents lies a gap only at a slot boundary, and
      there is no fixed point in it. */
  lemma {:induction false} NoOtherGaps(capacity: nat, extentSize: nat, top: nat)
    requires ArgumentsOk(capacity, extentSize) && top >= 1
    requires DataStart(1) + extentSize <= capacity < DataStart(top) + (top + 1) * extentSize
    ensures Accepts(capacity, extentSize, top)
    decreases top
  {
    if DataStart(top) + top * extentSize <= capacity {
      FixedPointFits(capacity, extentSize, top);
    } else if capacity < DataStart(top - 1) + top * extentSize {
      NoOtherGaps(capacity, extentSize, top - 1);
      if m :| 1 <= m <= top - 1 && FixedPoint(capacity, extentSize, m) {
        assert m <= top;
      }
    } else {
      var sectors := SlotLen(top - 1) / 4096;
      assert top - 1 == SlotBoundary(sectors);
      assert NoFixedPoint(capacity, extentSize, sectors);
    }
  }

  lemma Products(a: nat, b: nat, d: nat)
    requires a <= b
    ensures a * d <= b * d
  {
  }

  lemma HoldsIff(capacity: nat, extentSize: nat)
    requires ArgumentsOk(capacity, extentSize)
    ensures Accepts(capacity, extentSize, MAX_EXTENTS) <==> Holds(capacity, extentSize)
  {
    if Holds(capacity, extentSize) {
      NoOtherGaps(capacity, extentSize, MAX_EXTENTS);
    }
    if m :| 1 <= m <= MAX_EXTENTS && FixedPoint(capacity, extentSize, m) {
      FixedPointFits(capacity, extentSize, m);
      SlotLenGrows(1, m);
      SlotLenGrows(m, MAX_EXTENTS);
      Products(1, m, extentSize);
      Products(m + 1, MAX_EXTENTS + 1, extentSize);
    }
    if sectors :| NoFixedPoint(capacity, extentSize, sectors) && SlotBoundary(sectors) < MAX_EXTENTS {
      GapIsInside(capacity, extentSize, sectors);
    }
  }

  lemma GapIsInside(capacity: nat, extentSize: nat, sectors: nat)
    requires extentSize > 0 && NoFixedPoint(capacity, extentSize, sectors) && SlotBoundary(sectors) < MAX_EXTENTS
    ensures Holds(capacity, extentSize)
  {
    var b: nat := SlotBoundary(sectors);
    SlotOf(1, 1);
    SlotLenGrows(b + 1, MAX_EXTENTS);
    SlotOf(b + 1, sectors);
    Products(1, b + 1, extentSize);
    Products(b + 1, MAX_EXTENTS, extentSize);
    assert (MAX_EXTENTS + 1) * extentSize == MAX_EXTENTS * extentSize + extentSize;
  }

  /** Every permitted count is that of some device. */
  lemma DeviceFor(n: nat, extentSize: nat)
    requires 1 <= n <= MAX_EXTENTS
    requires MIN_EXTENT_SIZE <= extentSize <= MAX_EXTENT_SIZE && extentSize % SECTOR_SIZE == 0
    ensures var capacity := DataStart(n) + n * extentSize;
      && ArgumentsOk(capacity, extentSize) && DataStart(Estimate(capacity, extentSize)) < capacity
      && FixedPoint(capacity, extentSize, n)
  {
    var capacity := DataStart(n) + n * extentSize;
    var x, q := capacity - RESERVED_REGION_END, Estimate(capacity, extentSize);
    FixedPointFits(capacity, extentSize, n);
    Products(1, n, extentSize);
    QuotBounds(x, extentSize);
    assert (n + 5) * extentSize == n * extentSize + 5 * extentSize;
    if q >= n + 5 {
      Products(n + 5, q, extentSize);
    }
    assert SlotLen(q) <= SlotLen(n) + 4096;
  }

  lemma GapIsUnique(capacity: nat, extentSize: nat, a: nat, b: nat)
    requires extentSize > 0 && NoFixedPoint(capacity, extentSize, a) && NoFixedPoint(capacity, extentSize, b)
    ensures a == b
  {
    var lo, hi := if a < b then a else b, if a < b then b else a;
    if lo < hi {
      Products((SlotBoundary(lo) + 1) as nat, (SlotBoundary(hi) + 1) as nat, extentSize);
    }
  }

  /** Where the count is refused, a gap without fixed points lies above all permitted counts. */
  lemma GapIsHigh(capacity: nat, extentSize: nat, n: nat, sectors: nat, settled: bool)
    requires ArgumentsOk(capacity, extentSize) && DataStart(Estimate(capacity, extentSize)) < capacity
    requires if settled then FixedPoint(capacity, extentSize, n) else OrbitOf(capacity, extentSize).At(n, 4)
    requires NoFixedPoint(capacity, extentSize, sectors) && (n == 0 || n > MAX_EXTENTS)
    ensures SlotBoundary(sectors) >= MAX_EXTENTS
  {
    NoFixedPointMeansNone(capacity, extentSize, sectors, n);
    if Estimate(capacity, extentSize) < 1073741824 {
      FourMovesOscillate(capacity, extentSize, n);
      var other :| NoFixedPoint(capacity, extentSize, other) && n == SlotBoundary(other) + 1;
      GapIsUnique(capacity, extentSize, sectors, other);
    } else if SlotBoundary(sectors) < MAX_EXTENTS {
      GapIsInside(capacity, extentSize, sectors);
      DivBelow(capacity - RESERVED_REGION_END, extentSize, 1073741824);
    }
  }

  /** What the count means when the loop is over. */
  lemma LayoutVerdict(capacity: nat, extentSize: nat, n: nat, settled: bool)
    requires ArgumentsOk(capacity, extentSize) && DataStart(Estimate(capacity, extentSize)) < capacity
    requires if settled then FixedPoint(capacity, extentSize, n) else OrbitOf(capacity, extentSize).At(n, 4)
    ensures Verdict(capacity, extentSize, n)
  {
    var o := OrbitOf(capacity, extentSize);
    OrbitIsClose(capacity, extentSize);
    if !settled && o.start < 1073741824 {
      FourMovesOscillate(capacity, extentSize, n);
    }
    forall sectors | NoFixedPoint(capacity, extentSize, sectors)
      ensures forall m :: !FixedPoint(capacity, extentSize, m)
    {
      forall m ensures !FixedPoint(capacity, extentSize, m) {
        NoFixedPointMeansNone(capacity, extentSize, sectors, m);
      }
    }
    if n == 0 || n > MAX_EXTENTS {
      forall sectors | NoFixedPoint(capacity, extentSize, sectors) ensures SlotBoundary(sectors) >= MAX_EXTENTS {
        GapIsHigh(capacity, extentSize, n, sectors, settled);
      }
    }
    forall m | FixedPoint(capacity, extentSize, m) ensures o.low <= m && (settled ==> m == n) {
      FixedPointIsInOrbit(capacity, extentSize, m);
      if settled {
        FixedPointIsUnique(capacity, extentSize, m, n);
      }
    }
  }

  // ---------- what the layout is for ----------

  /** A count is a fixed point exactly when that many extents, and not one more, lie between the
      slots and the end of the device. */
  lemma FixedPointFits(capacity: nat, extentSize: nat, n: nat)
    requires extentSize > 0 && DataStart(n) < capacity
    ensures FixedPoint(capacity, extentSize, n) <==>
      DataStart(n) + n * extentSize <= capacity < DataStart(n) + (n + 1) * extentSize
  {
    var x, q := capacity - DataStart(n), Fitting(capacity, extentSize, n);
    QuotBounds(x, extentSize);
    if n * extentSize <= x < (n + 1) * extentSize {
      QuotientIsUnique(x, extentSize, n, q);
      QuotientIsUnique(x, extentSize, q, n);
    }
  }

  /** When the iteration cannot come to rest, the last extent of the layout sticks out of the device. */
  lemma LastExtentSticksOut(capacity: nat, extentSize: nat, n: nat)
    requires extentSize > 0 && DataStart(n) < capacity && n == Fitting(capacity, extentSize, n) + 1
    ensures DataStart(n) + (n - 1) * extentSize <= capacity < DataStart(n) + n * extentSize
  {
    QuotBounds(capacity - DataStart(n), extentSize);
  }

  /** A device of 31.7 GiB with extents of 1 MiB has no fixed point. */
  lemma DeviceWithoutFixedPoint(n: nat)
    ensures !FixedPoint(RESERVED_REGION_END + 8192 + 32449 * 1048576, 1048576, n)
  {
    NoFixedPointMeansNone(RESERVED_REGION_END + 8192 + 32449 * 1048576, 1048576, 1, n);
  }

  const CP_HEADER: nat := 48

  /** An encoded checkpoint, 48 bytes of header, the bitmap and 4 bytes of checksum, fits the slot
      unless the bitmap ends in one of twelve places: the slot was sized for a header of 40. */
  lemma CheckpointFitsSlot(n: nat)
    ensures CP_HEADER + BitmapBytes(n) + 4 <= SlotLen(n) <==>
      !(4045 <= BitmapBytes(n) % 4096 <= 4056)
  {
    var b := BitmapBytes(n);
    var q, r := b / 4096, b % 4096;
    assert b == 4096 * q + r;
    assert SlotLen(n) == 4096 * (q + if r <= 4056 then 1 else 2);
  }
}
