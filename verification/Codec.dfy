/** The on-disk images: superblock, extent header and checkpoint slot.

    Each is a zeroed buffer with numbers at fixed places, closed by a CRC-32C of everything before it. */
module Codecs {
  import opened Words
  import opened Numbers
  import opened Buffers
  import opened Crcs
  import opened Layouts

  datatype LayoutFault = BadSize | Unaligned | OverlapsReserved | OverlapsCheckpoint | EmptyData | NoExtents

  datatype CodecError =
    | TooShort | BadMagic | BadFormat | BadVersion | CrcMismatch | OutOfBounds
    | PackedWithTable | SlotTooSmall | InvalidLayout(fault: LayoutFault)

  function Checksum(data: seq<Byte>): nat {
    Crc32Of(Poly32C(), data, 0)
  }

  // ---------- sealed buffers ----------

  /** The items of a format, read in place. */
  ghost predicate Carries(b: seq<Byte>, entries: seq<Entry>) {
    forall i :: 0 <= i < |entries| ==> entries[i].In(b)
  }

  /** The buffer's checksum at `crcAt` covers everything before it. */
  ghost predicate IsSealed(b: seq<Byte>, crcAt: nat) {
    crcAt + 4 <= |b| && Num(b, crcAt, 4) == Checksum(b[..crcAt])
  }

  ghost function Open(n: nat, entries: seq<Entry>): (b: seq<Byte>)
    requires TidyEntries(entries, n)
    ensures |b| == n
  {
    FieldsAreTidy(entries, n);
    Filled(Zeroed(n), FieldsOf(entries), |entries|)
  }

  function Seal(open: seq<Byte>, crcAt: nat): Entry
    requires crcAt <= |open|
  {
    Number(crcAt, 4, Checksum(open[..crcAt]))
  }

  /** A buffer of `n` bytes with `entries` and, at `crcAt`, the checksum of what precedes it. */
  ghost function Sealed(n: nat, entries: seq<Entry>, crcAt: nat): (b: seq<Byte>)
    requires TidyEntries(entries, crcAt) && crcAt + 4 <= n
    ensures |b| == n
  {
    var open := Open(n, entries);
    Put(open, FieldOf(Seal(open, crcAt)))
  }

  lemma SealedHolds(n: nat, entries: seq<Entry>, crcAt: nat)
    requires TidyEntries(entries, crcAt) && crcAt + 4 <= n
    requires forall i :: 0 <= i < |entries| ==> entries[i].Fits()
    ensures IsSealed(Sealed(n, entries, crcAt), crcAt)
    ensures Carries(Sealed(n, entries, crcAt), entries)
  {
    var open, b := Open(n, entries), Sealed(n, entries, crcAt);
    var seal, fields := Seal(open, crcAt), FieldsOf(entries);
    PutReads(open, FieldOf(seal));
    ChecksumFits(open[..crcAt]);
    EntryReads(seal, b);
    PutKeeps(open, FieldOf(seal), 0, crcAt);
    FieldsAreTidy(entries, n);
    forall i | 0 <= i < |entries| ensures entries[i].In(b) {
      FieldReads(Zeroed(n), fields, |fields|, i);
      PutKeeps(open, FieldOf(seal), entries[i].at, entries[i].End());
      EntryReads(entries[i], b);
    }
  }

  lemma ChecksumFits(data: seq<Byte>)
    ensures Checksum(data) < U32_LIMIT
  {
    Pow2Values();
  }

  method WriteSealed(n: nat, entries: seq<Entry>, crcAt: nat) returns (b: array<Byte>)
    requires TidyEntries(entries, crcAt) && crcAt + 4 <= n
    ensures fresh(b) && b[..] == Sealed(n, entries, crcAt)
  {
    b := new Byte[n](_ => ZeroByte());
    assert b[..] == Zeroed(n);
    FieldsAreTidy(entries, n);
    PutFields(b, FieldsOf(entries));
    var crc := Crc32C(b[..crcAt], 0);
    assert b[..crcAt] == b[..][..crcAt];
    PutAt(b, FieldOf(Number(crcAt, 4, crc)));
  }

  // ---------- superblock ----------

  const SUPERBLOCK_SIZE: nat := 4096
  const SUPERBLOCK_MAGIC: nat := 0x5333_5346
  const SUPERBLOCK_FORMAT_VERSION: nat := 1
  const LAYOUT_VERSION: nat := 3
  const SB_CRC_END_V2: nat := 92
  const SB_CRC_END_V3: nat := 112

  datatype SuperBlock = SuperBlock(
    uuid: seq<Byte>, layoutVersion: nat, deviceGeneration: nat, extentSize: nat,
    checkpointOffset: nat, checkpointLen: nat, dataStart: nat, dataEnd: nat, features: nat,
    metadataOffset: nat, metadataLen: nat)

  predicate SuperBlockFits(sb: SuperBlock) {
    && |sb.uuid| == 16 && sb.layoutVersion < U32_LIMIT
    && sb.deviceGeneration < U64_LIMIT && sb.extentSize < U64_LIMIT
    && sb.checkpointOffset < U64_LIMIT && sb.checkpointLen < U64_LIMIT
    && sb.dataStart < U64_LIMIT && sb.dataEnd < U64_LIMIT && sb.features < U64_LIMIT
    && sb.metadataOffset < U64_LIMIT && sb.metadataLen < U64_LIMIT
  }

  /** The entries of layout version 2; version 3 adds two. */
  function CommonEntries(sb: SuperBlock): seq<Entry> {
    [ Number(0, 4, SUPERBLOCK_MAGIC), Number(4, 1, SUPERBLOCK_FORMAT_VERSION), Raw(16, sb.uuid),
      Number(32, 4, sb.layoutVersion), Number(36, 8, sb.deviceGeneration),
      Number(44, 8, sb.extentSize), Number(52, 8, sb.checkpointOffset),
      Number(60, 8, sb.checkpointLen), Number(68, 8, sb.dataStart),
      Number(76, 8, sb.dataEnd), Number(84, 8, sb.features) ]
  }

  function SuperBlockEntries(sb: SuperBlock): seq<Entry> {
    CommonEntries(sb) + [ Number(96, 8, sb.metadataOffset), Number(104, 8, sb.metadataLen) ]
  }

  /** Sums of two 64-bit offsets wrap. */
  function Validate(sb: SuperBlock): Option<LayoutFault> {
    if sb.extentSize < MIN_EXTENT_SIZE || sb.extentSize > MAX_EXTENT_SIZE then Some(BadSize)
    else if sb.extentSize % SECTOR_SIZE != 0 then Some(Unaligned)
    else if sb.checkpointOffset < RESERVED_REGION_END then Some(OverlapsReserved)
    else if sb.dataStart < (sb.checkpointOffset + 2 * sb.checkpointLen) % U64_LIMIT then Some(OverlapsCheckpoint)
    else if sb.dataEnd <= sb.dataStart then Some(EmptyData)
    else if Quot(sb.dataEnd - sb.dataStart, sb.extentSize) == 0 then Some(NoExtents)
    else None
  }

  function Validated(sb: SuperBlock): Result<SuperBlock, CodecError> {
    match Validate(sb)
    case None => Ok(sb)
    case Some(fault) => Err(InvalidLayout(fault))
  }

  /** What makes a layout valid: extents of a permitted size, slots behind the reserved region and data behind
      the slots, but for sums that wrap at 64 bits, and room for one extent at least. */
  predicate LayoutIsValid(sb: SuperBlock) {
    && 1048576 <= sb.extentSize <= 16777216 && sb.extentSize % 4096 == 0
    && RESERVED_REGION_END <= sb.checkpointOffset
    && (sb.checkpointOffset + 2 * sb.checkpointLen) % U64_LIMIT <= sb.dataStart
    && sb.dataStart < sb.dataEnd && sb.dataEnd - sb.dataStart >= sb.extentSize
  }

  lemma QuotIsZeroIff(x: nat, d: nat)
    requires d > 0
    ensures Quot(x, d) == 0 <==> x < d
  {
  }

  /** A superblock is accepted if and only if its layout is valid; each fault is given only for what it names. */
  lemma ValidIff(sb: SuperBlock)
    ensures Validate(sb) == None <==> LayoutIsValid(sb)
    ensures Validate(sb) == Some(BadSize) <==> !(1048576 <= sb.extentSize <= 16777216)
    ensures Validate(sb) == Some(Unaligned) <==> 1048576 <= sb.extentSize <= 16777216 && sb.extentSize % 4096 != 0
    ensures Validate(sb) == Some(OverlapsReserved) ==> sb.checkpointOffset < RESERVED_REGION_END
    ensures Validate(sb) == Some(OverlapsCheckpoint) ==>
      sb.dataStart < (sb.checkpointOffset + 2 * sb.checkpointLen) % U64_LIMIT
    ensures Validate(sb) == Some(EmptyData) ==> sb.dataEnd <= sb.dataStart
    ensures Validate(sb) == Some(NoExtents) ==> sb.dataStart < sb.dataEnd < sb.dataStart + sb.extentSize
  {
    if sb.extentSize > 0 && sb.dataEnd > sb.dataStart {
      QuotIsZeroIff(sb.dataEnd - sb.dataStart, sb.extentSize);
    }
  }

  /** A superblock that carries a computed layout. */
  predicate CarriesLayout(sb: SuperBlock, layout: Layout, extentSize: nat) {
    && sb.extentSize == extentSize && sb.checkpointOffset == layout.checkpointOffset
    && sb.checkpointLen == layout.checkpointLen && sb.dataStart == layout.dataStart && sb.dataEnd == layout.dataEnd
  }

  /** Every layout that is computed for a device is accepted, also the one whose last extent sticks out. */
  lemma ComputedIsValid(capacity: nat, extentSize: nat, n: nat, sb: SuperBlock)
    requires ArgumentsOk(capacity, extentSize) && capacity < U64_LIMIT && 1 <= n && DataStart(n) < capacity
    requires FixedPoint(capacity, extentSize, n) ||
      (Fitting(capacity, extentSize, n) == n - 1 &&
       exists sectors :: NoFixedPoint(capacity, extentSize, sectors) && n == SlotBoundary(sectors) + 1)
    requires CarriesLayout(sb, LayoutFor(capacity, n), extentSize)
    ensures Validate(sb) == None
  {
    var room := capacity - DataStart(n);
    assert Fitting(capacity, extentSize, n) == Quot(room, extentSize) > 0;
    QuotIsZeroIff(room, extentSize);
    ValidIff(sb);
  }

  function CommonPart(b: seq<Byte>, metadataOffset: nat, metadataLen: nat): SuperBlock
    requires |b| >= SUPERBLOCK_SIZE
  {
    SuperBlock(b[16..32], Num(b, 32, 4), Num(b, 36, 8), Num(b, 44, 8), Num(b, 52, 8), Num(b, 60, 8),
               Num(b, 68, 8), Num(b, 76, 8), Num(b, 84, 8), metadataOffset, metadataLen)
  }

  function DecodeSuperBlock(b: seq<Byte>): Result<SuperBlock, CodecError> {
    if |b| < SUPERBLOCK_SIZE then Err(TooShort)
    else if Num(b, 0, 4) != SUPERBLOCK_MAGIC then Err(BadMagic)
    else if Num(b, 4, 1) != SUPERBLOCK_FORMAT_VERSION then Err(BadFormat)
    else if Num(b, 32, 4) == 2 then
      if Num(b, 92, 4) != Checksum(b[..SB_CRC_END_V2]) then Err(CrcMismatch)
      else Validated(CommonPart(b, 0, 0))
    else if Num(b, 32, 4) != LAYOUT_VERSION then Err(BadVersion)
    else if Num(b, 112, 4) != Checksum(b[..SB_CRC_END_V3]) then Err(CrcMismatch)
    else Validated(CommonPart(b, Num(b, 96, 8), Num(b, 104, 8)))
  }

  lemma CommonReads(b: seq<Byte>, sb: SuperBlock, entries: seq<Entry>)
    requires |b| == SUPERBLOCK_SIZE && SuperBlockFits(sb) && CommonEntries(sb) <= entries && Carries(b, entries)
    ensures Num(b, 0, 4) == SUPERBLOCK_MAGIC && Num(b, 4, 1) == SUPERBLOCK_FORMAT_VERSION
    ensures CommonPart(b, sb.metadataOffset, sb.metadataLen) == sb
  {
    assert entries[0].In(b);
    assert entries[1].In(b);
    assert b[16..32] == sb.uuid by { assert entries[2] == Raw(16, sb.uuid); }
    assert entries[3].In(b);
    assert entries[4].In(b);
    assert entries[5].In(b);
    assert entries[6].In(b);
    assert entries[7].In(b);
    assert entries[8].In(b);
    assert entries[9].In(b);
    assert entries[10].In(b);
  }

  ghost function SuperBlockImage(sb: SuperBlock): (b: seq<Byte>)
    requires SuperBlockFits(sb)
    ensures |b| == SUPERBLOCK_SIZE
  {
    Sealed(SUPERBLOCK_SIZE, SuperBlockEntries(sb), SB_CRC_END_V3)
  }

  lemma SuperBlockDecodes(b: seq<Byte>, sb: SuperBlock)
    requires SuperBlockFits(sb) && sb.layoutVersion == LAYOUT_VERSION && |b| == SUPERBLOCK_SIZE
    requires Carries(b, SuperBlockEntries(sb)) && IsSealed(b, SB_CRC_END_V3)
    ensures DecodeSuperBlock(b) == Validated(sb)
  {
    var entries := SuperBlockEntries(sb);
    CommonReads(b, sb, entries);
    assert entries[11].In(b);
    assert entries[12].In(b);
  }

  /** The encoded superblock decodes to itself, or to the fault that validation finds in it. */
  lemma SuperBlockRoundTrip(sb: SuperBlock)
    requires SuperBlockFits(sb) && sb.layoutVersion == LAYOUT_VERSION
    ensures DecodeSuperBlock(SuperBlockImage(sb)) == Validated(sb)
  {
    SealedHolds(SUPERBLOCK_SIZE, SuperBlockEntries(sb), SB_CRC_END_V3);
    SuperBlockDecodes(SuperBlockImage(sb), sb);
  }

  /** A device of layout version 2 stays readable: its shorter checksum is honoured. */
  lemma OldSuperBlockReads(sb: SuperBlock)
    requires SuperBlockFits(sb) && sb.layoutVersion == 2 && sb.metadataOffset == sb.metadataLen == 0
    ensures DecodeSuperBlock(Sealed(SUPERBLOCK_SIZE, CommonEntries(sb), SB_CRC_END_V2)) == Validated(sb)
  {
    var entries := CommonEntries(sb);
    SealedHolds(SUPERBLOCK_SIZE, entries, SB_CRC_END_V2);
    CommonReads(Sealed(SUPERBLOCK_SIZE, entries, SB_CRC_END_V2), sb, entries);
  }

  method EncodeSuperBlock(sb: SuperBlock) returns (b: array<Byte>)
    requires SuperBlockFits(sb)
    ensures fresh(b) && b[..] == SuperBlockImage(sb)
  {
    b := WriteSealed(SUPERBLOCK_SIZE, SuperBlockEntries(sb), SB_CRC_END_V3);
  }

  // ---------- extent header ----------

  const EXTENT_HEADER_SIZE: nat := 4096
  const EXTENT_MAGIC: nat := 0x4533_5346

  datatype ExtentHeader = ExtentHeader(generation: nat, flags: nat, chunkSize: nat, chunkCrcs: seq<nat>) {
    /** `flags & EXTENT_FLAG_PACKED != 0`. */
    predicate Packed() { flags % 2 == 1 }
  }

  predicate HeaderFits(h: ExtentHeader) {
    && h.generation < U64_LIMIT && h.flags < U32_LIMIT && h.chunkSize < U32_LIMIT
    && (forall i :: 0 <= i < |h.chunkCrcs| ==> h.chunkCrcs[i] < U32_LIMIT)
    && 52 + 4 * |h.chunkCrcs| <= EXTENT_HEADER_SIZE
  }

  function FixedEntries(h: ExtentHeader): seq<Entry> {
    [ Number(0, 4, EXTENT_MAGIC), Number(4, 8, h.generation), Number(12, 4, h.flags),
      Number(36, 4, h.chunkSize), Number(40, 2, |h.chunkCrcs| % 65536) ]
  }

  function TableEntries(crcs: seq<nat>): (r: seq<Entry>)
    ensures |r| == |crcs|
    ensures forall i :: 0 <= i < |r| ==> r[i] == Number(48 + 4 * i, 4, crcs[i])
  {
    seq(|crcs|, i requires 0 <= i < |crcs| => Number(48 + 4 * i, 4, crcs[i]))
  }

  function HeaderEntries(h: ExtentHeader): seq<Entry> {
    FixedEntries(h) + TableEntries(h.chunkCrcs)
  }

  lemma HeaderIsTidy(h: ExtentHeader)
    ensures TidyEntries(HeaderEntries(h), 48 + 4 * |h.chunkCrcs|)
  {
  }

  ghost function HeaderImage(h: ExtentHeader): (b: seq<Byte>)
    requires HeaderFits(h)
    ensures |b| == EXTENT_HEADER_SIZE
  {
    HeaderIsTidy(h);
    Sealed(EXTENT_HEADER_SIZE, HeaderEntries(h), 48 + 4 * |h.chunkCrcs|)
  }

  function Table(b: seq<Byte>, n: nat): (r: seq<nat>)
    requires 48 + 4 * n <= |b|
    ensures |r| == n
  {
    seq(n, i requires 0 <= i < n => Num(b, 48 + 4 * i, 4))
  }

  function DecodeHeader(b: seq<Byte>): Result<ExtentHeader, CodecError> {
    if |b| < EXTENT_HEADER_SIZE then Err(TooShort)
    else if Num(b, 0, 4) != EXTENT_MAGIC then Err(BadMagic)
    else
      var flags, n := Num(b, 12, 4), Num(b, 40, 2);
      if flags % 2 == 1 && n != 0 then Err(PackedWithTable)
      else
        var crcEnd := 48 + 4 * n;
        if crcEnd + 4 > |b| then Err(OutOfBounds)
        else if Num(b, crcEnd, 4) != Checksum(b[..crcEnd]) then Err(CrcMismatch)
        else Ok(ExtentHeader(Num(b, 4, 8), flags, Num(b, 36, 4), Table(b, n)))
  }

  lemma TableReads(b: seq<Byte>, h: ExtentHeader)
    requires HeaderFits(h) && Carries(b, HeaderEntries(h)) && |b| == EXTENT_HEADER_SIZE
    ensures Table(b, |h.chunkCrcs|) == h.chunkCrcs
  {
    var entries := HeaderEntries(h);
    forall i | 0 <= i < |h.chunkCrcs| ensures Num(b, 48 + 4 * i, 4) == h.chunkCrcs[i] {
      assert entries[5 + i] == Number(48 + 4 * i, 4, h.chunkCrcs[i]);
      assert entries[5 + i].In(b);
    }
  }

  lemma HeaderReads(b: seq<Byte>, h: ExtentHeader)
    requires HeaderFits(h) && Carries(b, HeaderEntries(h)) && |b| == EXTENT_HEADER_SIZE
    ensures Num(b, 0, 4) == EXTENT_MAGIC && Num(b, 4, 8) == h.generation && Num(b, 12, 4) == h.flags
    ensures Num(b, 36, 4) == h.chunkSize && Num(b, 40, 2) == |h.chunkCrcs|
  {
    var entries := HeaderEntries(h);
    assert entries[0].In(b);
    assert entries[1].In(b);
    assert entries[2].In(b);
    assert entries[3].In(b);
    assert entries[4].In(b);
  }

  lemma HeaderDecodes(b: seq<Byte>, h: ExtentHeader)
    requires HeaderFits(h) && Carries(b, HeaderEntries(h)) && |b| == EXTENT_HEADER_SIZE
    requires IsSealed(b, 48 + 4 * |h.chunkCrcs|)
    ensures DecodeHeader(b) == if h.Packed() && h.chunkCrcs != [] then Err(PackedWithTable) else Ok(h)
  {
    HeaderReads(b, h);
    TableReads(b, h);
  }

  /** An encoded extent header decodes to itself, unless it is packed and yet carries a table. */
  lemma HeaderRoundTrip(h: ExtentHeader)
    requires HeaderFits(h)
    ensures DecodeHeader(HeaderImage(h)) == if h.Packed() && h.chunkCrcs != [] then Err(PackedWithTable) else Ok(h)
  {
    HeaderIsTidy(h);
    SealedHolds(EXTENT_HEADER_SIZE, HeaderEntries(h), 48 + 4 * |h.chunkCrcs|);
    HeaderDecodes(HeaderImage(h), h);
  }

  method EncodeHeader(h: ExtentHeader) returns (b: array<Byte>)
    requires HeaderFits(h)
    ensures fresh(b) && b[..] == HeaderImage(h)
  {
    HeaderIsTidy(h);
    b := WriteSealed(EXTENT_HEADER_SIZE, HeaderEntries(h), 48 + 4 * |h.chunkCrcs|);
  }

  // ---------- checkpoint slot ----------

  const CHECKPOINT_MAGIC: nat := 0x4653_335F_4348_4B50

  datatype CheckpointData = CheckpointData(
    generation: nat, seqNo: nat, totalAlloc: nat, totalFree: nat, bitmap: seq<Byte>)

  predicate CheckpointFits(cp: CheckpointData) {
    && cp.generation < U64_LIMIT && cp.seqNo < U64_LIMIT && cp.totalAlloc < U64_LIMIT && cp.totalFree < U64_LIMIT
    && |cp.bitmap| < U32_LIMIT
  }

  function CheckpointEntries(cp: CheckpointData): seq<Entry> {
    [ Number(0, 8, CHECKPOINT_MAGIC), Number(8, 8, cp.generation), Number(16, 8, cp.seqNo),
      Number(24, 4, |cp.bitmap|), Number(28, 8, cp.totalAlloc), Number(36, 8, cp.totalFree),
      Raw(CP_HEADER, cp.bitmap) ]
  }

  /** The bytes that an encoded checkpoint takes in its slot. */
  function Need(cp: CheckpointData): nat {
    CP_HEADER + |cp.bitmap| + 4
  }

  ghost function CheckpointImage(cp: CheckpointData, slotLen: nat): (b: seq<Byte>)
    requires Need(cp) <= slotLen
    ensures |b| == slotLen
  {
    Sealed(slotLen, CheckpointEntries(cp), CP_HEADER + |cp.bitmap|)
  }

  function DecodeCheckpoint(b: seq<Byte>): Result<CheckpointData, CodecError> {
    if |b| < CP_HEADER + 4 then Err(TooShort)
    else if Num(b, 0, 8) != CHECKPOINT_MAGIC then Err(BadMagic)
    else
      var end := CP_HEADER + Num(b, 24, 4);
      if |b| < end + 4 then Err(OutOfBounds)
      else if Num(b, end, 4) != Checksum(b[..end]) then Err(CrcMismatch)
      else Ok(CheckpointData(Num(b, 8, 8), Num(b, 16, 8), Num(b, 28, 8), Num(b, 36, 8), b[CP_HEADER..end]))
  }

  lemma CheckpointDecodes(b: seq<Byte>, cp: CheckpointData)
    requires CheckpointFits(cp) && Need(cp) <= |b|
    requires Carries(b, CheckpointEntries(cp)) && IsSealed(b, CP_HEADER + |cp.bitmap|)
    ensures DecodeCheckpoint(b) == Ok(cp)
  {
    var entries := CheckpointEntries(cp);
    assert entries[0].In(b);
    assert entries[1].In(b);
    assert entries[2].In(b);
    assert entries[3].In(b);
    assert entries[4].In(b);
    assert entries[5].In(b);
    assert entries[6].In(b);
  }

  lemma CheckpointRoundTrip(cp: CheckpointData, slotLen: nat)
    requires CheckpointFits(cp) && Need(cp) <= slotLen
    ensures DecodeCheckpoint(CheckpointImage(cp, slotLen)) == Ok(cp)
  {
    SealedHolds(slotLen, CheckpointEntries(cp), CP_HEADER + |cp.bitmap|);
    CheckpointDecodes(CheckpointImage(cp, slotLen), cp);
  }

  lemma NumFits(b: seq<Byte>, at: nat, size: nat)
    requires at + size <= |b| && Limit(size) > 0
    ensures Num(b, at, size) < Limit(size)
  {
    Pow2Values();
  }

  /** What decodes fits its entries, so it can be encoded again. */
  lemma DecodedFits(b: seq<Byte>)
    requires DecodeCheckpoint(b).Ok?
    ensures CheckpointFits(DecodeCheckpoint(b).value) && Need(DecodeCheckpoint(b).value) <= |b|
  {
    NumFits(b, 8, 8);
    NumFits(b, 16, 8);
    NumFits(b, 28, 8);
    NumFits(b, 36, 8);
    NumFits(b, 24, 4);
  }

  lemma ZerosDoNotDecode(n: nat)
    ensures DecodeCheckpoint(Zeroed(n)).Err?
  {
    if n >= CP_HEADER + 4 {
      var z := Zeroed(n)[0..0 + 8];
      FlatOfZeros(z);
      ZeroNumber(Flat(z));
    }
  }

  lemma {:induction false} FlatOfZeros(bytes: seq<Byte>)
    requires forall i :: 0 <= i < |bytes| ==> bytes[i] == ZeroByte()
    ensures forall i :: 0 <= i < |Flat(bytes)| ==> !Flat(bytes)[i]
  {
    if bytes != [] {
      FlatOfZeros(bytes[1..]);
    }
  }

  lemma {:induction false} ZeroNumber(bits: seq<bool>)
    requires forall i :: 0 <= i < |bits| ==> !bits[i]
    ensures FromBits(bits) == 0
  {
    if bits != [] {
      ZeroNumber(bits[1..]);
    }
  }

  method EncodeCheckpoint(cp: CheckpointData, slotLen: nat) returns (r: Result<seq<Byte>, CodecError>)
    ensures r == if Need(cp) <= slotLen then Ok(CheckpointImage(cp, slotLen)) else Err(SlotTooSmall)
  {
    if slotLen < Need(cp) {
      return Err(SlotTooSmall);
    }
    var b := WriteSealed(slotLen, CheckpointEntries(cp), CP_HEADER + |cp.bitmap|);
    r := Ok(b[..]);
  }
}
