/** A pool of devices: global extent ids are derived from the devices' order and extent counts. */
module Pools {
  import opened Words
  import opened Bitmaps

  datatype Device = Device(extentCount: nat, weight: nat)

  datatype PoolError = IndexOutOfRange | ZeroExtents | ZeroWeight | CountOverflow | LocalOutOfRange | GlobalOutOfRange
                     | EmptyPool | IdSpaceExceeded

  /** The first global id of device `idx`: the extents of all devices before it. */
  function Base(devices: seq<Device>, idx: nat): nat
    requires idx <= |devices|
  {
    if idx == 0 then 0 else Base(devices, idx - 1) + devices[idx - 1].extentCount
  }

  function Total(devices: seq<Device>): nat {
    Base(devices, |devices|)
  }

  predicate NoneEmpty(devices: seq<Device>) {
    forall i :: 0 <= i < |devices| ==> devices[i].extentCount > 0
  }

  /** Global id `g` is extent `local` of device `idx`. */
  ghost predicate IsAt(devices: seq<Device>, g: nat, idx: nat, local: nat) {
    idx < |devices| && local < devices[idx].extentCount && g == Base(devices, idx) + local
  }

  lemma {:induction false} BaseGrows(devices: seq<Device>, i: nat, j: nat)
    requires i <= j <= |devices|
    ensures Base(devices, i) <= Base(devices, j)
    ensures i < j ==> Base(devices, i) + devices[i].extentCount <= Base(devices, j)
    decreases j
  {
    if i < j {
      BaseGrows(devices, i, j - 1);
    }
  }

  // ---------- the manifest ----------

  method DeviceBase(devices: seq<Device>, idx: nat) returns (r: Result<nat, PoolError>)
    ensures r.Ok? <==> idx < |devices| && devices[idx].extentCount > 0 && Base(devices, idx) < U64_LIMIT
    ensures r.Ok? ==> r.value == Base(devices, idx)
  {
    if idx >= |devices| {
      return Err(IndexOutOfRange);
    }
    var base := 0;
    for i := 0 to idx
      invariant base == Base(devices, i) < U64_LIMIT
    {
      base := base + devices[i].extentCount;
      if base >= U64_LIMIT {
        BaseGrows(devices, i + 1, idx);
        return Err(CountOverflow);
      }
    }
    if devices[idx].extentCount == 0 {
      return Err(ZeroExtents);
    }
    r := Ok(base);
  }

  method GlobalExtentId(devices: seq<Device>, idx: nat, local: nat) returns (r: Result<nat, PoolError>)
    ensures r.Ok? <==> idx < |devices| && local < devices[idx].extentCount && Base(devices, idx) + local < U64_LIMIT
    ensures r.Ok? ==> IsAt(devices, r.value, idx, local)
  {
    var base := DeviceBase(devices, idx);
    if base.Err? {
      return Err(base.error);
    }
    if local >= devices[idx].extentCount {
      return Err(LocalOutOfRange);
    }
    if base.value + local >= U64_LIMIT {
      return Err(CountOverflow);
    }
    r := Ok(base.value + local);
  }

  /** Stops with an error at the first device without extents, if the id has not been found before it. */
  method Resolve(devices: seq<Device>, global: nat) returns (r: Result<(nat, nat), PoolError>)
    requires Total(devices) < U64_LIMIT
    ensures r.Ok? ==> IsAt(devices, global, r.value.0, r.value.1)
    ensures r.Ok? <==> exists idx: nat, local: nat :: IsAt(devices, global, idx, local) && NoneEmpty(devices[..idx])
  {
    var base := 0;
    for idx := 0 to |devices|
      invariant base == Base(devices, idx) <= global
      invariant forall i :: 0 <= i < idx ==> devices[i].extentCount > 0
    {
      if devices[idx].extentCount == 0 {
        NotBefore(devices, global, idx);
        return Err(ZeroExtents);
      }
      if global < base + devices[idx].extentCount {
        assert IsAt(devices, global, idx, global - base);
        return Ok((idx, global - base));
      }
      base := base + devices[idx].extentCount;
    }
    NotBefore(devices, global, |devices|);
    r := Err(GlobalOutOfRange);
  }

  lemma NotBefore(devices: seq<Device>, global: nat, at: nat)
    requires at <= |devices| && Base(devices, at) <= global
    ensures forall i: nat, l: nat :: IsAt(devices, global, i, l) ==> i >= at
    ensures at < |devices| && devices[at].extentCount == 0 ==>
      forall i: nat, l: nat :: IsAt(devices, global, i, l) ==> !NoneEmpty(devices[..i])
  {
    forall i: nat, l: nat | IsAt(devices, global, i, l)
      ensures i >= at
      ensures at < |devices| && devices[at].extentCount == 0 ==> !NoneEmpty(devices[..i])
    {
      if i < at {
        BaseGrows(devices, i, at);
      } else if at < |devices| && devices[at].extentCount == 0 {
        assert i > at && devices[..i][at] == devices[at];
      }
    }
  }

  /** The compactor's own resolver has no error path: an id beyond the pool comes out as an id beyond
      the last device. */
  method ResolveExtent(devices: seq<Device>, id: nat) returns (r: (nat, nat))
    requires devices != [] && Total(devices) < U64_LIMIT
    ensures id < Total(devices) <==> IsAt(devices, id, r.0, r.1)
    ensures id >= Total(devices) ==> r == (|devices| - 1, id - Total(devices))
  {
    var base := 0;
    for di := 0 to |devices|
      invariant base == Base(devices, di) <= id
    {
      if id < base + devices[di].extentCount {
        BaseGrows(devices, di + 1, |devices|);
        return (di, id - base);
      }
      base := base + devices[di].extentCount;
    }
    r := (|devices| - 1, id - base);
    BaseGrows(devices, |devices| - 1, |devices|);
  }

  method ValidateManifest(devices: seq<Device>) returns (r: Result<(), PoolError>)
    ensures r.Ok? <==>
      && devices != [] && NoneEmpty(devices) && Total(devices) < U32_LIMIT
      && forall i :: 0 <= i < |devices| ==> devices[i].weight > 0
  {
    if devices == [] {
      return Err(EmptyPool);
    }
    var total := 0;
    for i := 0 to |devices|
      invariant total == Base(devices, i)
      invariant forall k :: 0 <= k < i ==> devices[k].extentCount > 0 && devices[k].weight > 0
    {
      if devices[i].extentCount == 0 {
        return Err(ZeroExtents);
      }
      if devices[i].weight == 0 {
        return Err(ZeroWeight);
      }
      total := total + devices[i].extentCount;
      if total >= U64_LIMIT {
        BaseGrows(devices, i + 1, |devices|);
        return Err(CountOverflow);
      }
    }
    if total > U32_LIMIT - 1 {
      return Err(IdSpaceExceeded);
    }
    r := Ok(());
  }

  // ---------- the derived map ----------

  /** Every id below the total lies in exactly one device window, at exactly one place. */
  lemma {:induction false} WindowsPartition(devices: seq<Device>, g: nat) returns (idx: nat, local: nat)
    requires g < Total(devices)
    ensures IsAt(devices, g, idx, local)
    ensures forall i: nat, l: nat :: IsAt(devices, g, i, l) ==> i == idx && l == local
  {
    idx := |devices| - 1;
    while g < Base(devices, idx)
      invariant idx < |devices| && g < Base(devices, idx + 1)
      decreases idx
    {
      idx := idx - 1;
    }
    local := g - Base(devices, idx);
    forall i: nat, l: nat | IsAt(devices, g, i, l) ensures i == idx && l == local {
      if i < idx {
        BaseGrows(devices, i, idx);
      } else if idx < i {
        BaseGrows(devices, idx, i);
      }
    }
  }

  /** On a pool that passes validation, a place found for an id gives the id back, and an id derived from
      a place gives the place back. */
  method PlaceRoundTrip(devices: seq<Device>, idx: nat, local: nat) returns (g: nat, back: (nat, nat))
    requires NoneEmpty(devices) && Total(devices) < U32_LIMIT
    requires idx < |devices| && local < devices[idx].extentCount
    ensures IsAt(devices, g, idx, local) && back == (idx, local)
  {
    BaseGrows(devices, idx + 1, |devices|);
    var id := GlobalExtentId(devices, idx, local);
    g := id.value;
    ghost var i, l := WindowsPartition(devices, g);
    assert NoneEmpty(devices[..idx]);
    var r := Resolve(devices, g);
    back := r.value;
  }

  method RoundTrip(devices: seq<Device>, g: nat) returns (idx: nat, local: nat, back: nat)
    requires NoneEmpty(devices) && Total(devices) < U32_LIMIT && g < Total(devices)
    ensures IsAt(devices, g, idx, local) && back == g
  {
    ghost var i, l := WindowsPartition(devices, g);
    var r := Resolve(devices, g);
    BaseGrows(devices, i, |devices|);
    assert r.Ok? by { assert NoneEmpty(devices[..i]); }
    idx, local := r.value.0, r.value.1;
    var id := GlobalExtentId(devices, idx, local);
    back := id.value;
  }

  /** Devices are added and removed at the end only, so no id changes its place. */
  lemma {:induction false} TailChangesKeepIds(devices: seq<Device>, tail: seq<Device>, g: nat, idx: nat, local: nat)
    requires idx < |devices|
    ensures IsAt(devices, g, idx, local) <==> IsAt(devices + tail, g, idx, local)
    ensures Total(devices) <= Total(devices + tail)
  {
    PrefixBase(devices, tail, idx);
    PrefixBase(devices, tail, |devices|);
    BaseGrows(devices + tail, |devices|, |devices + tail|);
  }

  lemma {:induction false} PrefixBase(devices: seq<Device>, tail: seq<Device>, idx: nat)
    requires idx <= |devices|
    ensures Base(devices + tail, idx) == Base(devices, idx)
    decreases idx
  {
    if idx > 0 {
      PrefixBase(devices, tail, idx - 1);
    }
  }

  // ---------- per-device checkpoints ----------

  /** Saving every device's window of the bitmap and loading each at its base into an empty bitmap
      gives the bitmap back, whatever the alignment of the windows. */
  method RestoreFromWindows(devices: seq<Device>, b: Bitmap) returns (r: Bitmap)
    requires b.Valid() && b.n == Total(devices)
    ensures fresh(r) && r.Valid() && r.n == b.n && r.Bits() == b.Bits()
  {
    r := new Bitmap(b.n);
    var base := 0;
    for idx := 0 to |devices|
      invariant fresh(r) && r.Valid() && r.n == b.n && base == Base(devices, idx) <= b.n
      invariant forall i :: 0 <= i < b.n ==> r.Bits()[i] == (i < base && b.Bits()[i])
    {
      var count := devices[idx].extentCount;
      BaseGrows(devices, idx + 1, |devices|);
      var bytes := b.SerializeRange(base, count);
      ghost var before := r.Bits();
      r.LoadRange(bytes, base);
      forall i | 0 <= i < b.n ensures r.Bits()[i] == (i < base + count && b.Bits()[i]) {
        if base <= i < base + 8 * |bytes| {
          assert ByteBit(bytes, i - base) == (i - base < count && b.Bits()[base + (i - base)]);
        }
        assert r.Bits()[i] == (before[i] || (base <= i < base + 8 * |bytes| && ByteBit(bytes, i - base)));
      }
      base := base + count;
    }
  }
}
