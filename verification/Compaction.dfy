/** Compaction: live segments of sparse extents are copied into one fresh extent, then object by
    object the metadata is switched over.

    Copying runs without locks, one 64 KiB chunk at a time, while other transactions delete, copy and
    write objects; a switch is one metadata transaction. The run of a batch is a sequence of such
    steps in any order that the batch and its environment allow. */
module Compactions {
  import opened Words
  import opened Layouts
  import opened Codecs
  import Crcs

  const GRID: nat := 65536

  datatype Segment = Segment(ext: nat, off: nat, len: nat, crcs: seq<nat>)

  /** An object's data and its restored copy; an upload part has no restored copy. */
  datatype Object = Object(extents: seq<Segment>, restored: seq<Segment>)

  /** The data areas of all extents. */
  type Disk = seq<seq<Byte>>

  // ---------- bytes ----------

  predicate Fits(disk: Disk, s: Segment) {
    s.ext < |disk| && s.off + s.len <= |disk[s.ext]|
  }

  function Bytes(disk: Disk, s: Segment): (b: seq<Byte>)
    requires Fits(disk, s)
    ensures |b| == s.len
  {
    disk[s.ext][s.off..s.off + s.len]
  }

  predicate AllFit(disk: Disk, segs: seq<Segment>) {
    forall i :: 0 <= i < |segs| ==> Fits(disk, segs[i])
  }

  /** What a reader of the segments gets. */
  function Read(disk: Disk, segs: seq<Segment>): seq<Byte>
    requires AllFit(disk, segs)
  {
    if segs == [] then [] else Bytes(disk, segs[0]) + Read(disk, segs[1..])
  }

  lemma {:induction false} ReadsAlike(disk: Disk, segs: seq<Segment>, disk': Disk, segs': seq<Segment>)
    requires AllFit(disk, segs) && AllFit(disk', segs') && |segs| == |segs'|
    requires forall i :: 0 <= i < |segs| ==> Bytes(disk, segs[i]) == Bytes(disk', segs'[i])
    ensures Read(disk, segs) == Read(disk', segs')
    decreases |segs|
  {
    if segs != [] {
      ReadsAlike(disk, segs[1..], disk', segs'[1..]);
    }
  }

  /** `b` written at `at`. */
  function Overlay(area: seq<Byte>, at: nat, b: seq<Byte>): (r: seq<Byte>)
    requires at + |b| <= |area|
    ensures |r| == |area|
    ensures forall i :: 0 <= i < |r| ==> r[i] == if at <= i < at + |b| then b[i - at] else area[i]
  {
    area[..at] + b + area[at + |b|..]
  }

  function Zeros(n: nat): (z: seq<Byte>)
    ensures |z| == n
  {
    seq(n, _ => ZeroByte())
  }

  /** `align_up(len, 4096)`. */
  function Span(len: nat): (n: nat)
    ensures len <= n < len + 4096 && n % 4096 == 0
  {
    (len + 4095) / 4096 * 4096
  }

  /** The physical room that a list of segments takes. */
  function Room(segs: seq<Segment>): nat {
    if segs == [] then 0 else Span(segs[0].len) + Room(segs[1..])
  }

  /** The checksums of the data, one for each 64 KiB unit, the last one possibly shorter. */
  function Grid(data: seq<Byte>): seq<nat> {
    if data == [] then []
    else if |data| <= GRID then [Checksum(data)]
    else [Checksum(data[..GRID])] + Grid(data[GRID..])
  }

  lemma Behind(data: seq<Byte>, n: nat, from: nat, to: nat)
    requires n <= |data| && from <= to <= |data| - n
    ensures data[n..][from..to] == data[n + from..n + to]
  {
  }

  /** Checksum `i` covers the bytes from 65536 * i up to 65536 * (i + 1), or to the end of the data; and there
      is one for each such unit. */
  lemma {:induction false} GridCovers(data: seq<Byte>, i: nat)
    requires 65536 * i < |data|
    ensures i < |Grid(data)|
    ensures Grid(data)[i] == Checksum(data[65536 * i..if 65536 * (i + 1) < |data| then 65536 * (i + 1) else |data|])
    decreases |data|
  {
    if i == 0 {
      assert data[0..|data|] == data;
    } else {
      var rest := data[GRID..];
      GridCovers(rest, i - 1);
      var end := if 65536 * i < |rest| then 65536 * i else |rest|;
      Behind(data, GRID, 65536 * (i - 1), end);
    }
  }

  lemma {:induction false} GridCount(data: seq<Byte>)
    ensures |Grid(data)| == (|data| + 65535) / 65536
    decreases |data|
  {
    if |data| > GRID {
      GridCount(data[GRID..]);
    }
  }

  // ---------- copying one segment ----------

  class DataAreas {
    var areas: Disk

    method ReadExact(ext: nat, off: nat, len: nat) returns (b: seq<Byte>)
      requires ext < |areas| && off + len <= |areas[ext]|
      ensures b == areas[ext][off..off + len]
    {
      b := areas[ext][off..off + len];
    }

    method WriteAll(ext: nat, off: nat, b: seq<Byte>)
      requires ext < |areas| && off + |b| <= |areas[ext]|
      modifies this
      ensures areas == old(areas)[ext := Overlay(old(areas)[ext], off, b)]
    {
      areas := areas[ext := Overlay(areas[ext], off, b)];
    }

    /** Copies one chunk of segment `s` and returns its checksum, continued from `seed`. */
    method CopyChunk(eid: nat, wm: nat, s: Segment, done: nat, chunkLen: nat, seed: nat) returns (crc: nat)
      requires eid < |areas| && s.ext < |areas| && chunkLen <= s.len - done
      requires wm + done + Span(chunkLen) <= |areas[eid]| && s.off + done + Span(chunkLen) <= |areas[s.ext]|
      requires Fits(areas, s) && seed < U32_LIMIT
      modifies this
      ensures areas == old(areas)[eid := Overlay(old(areas)[eid], wm + done,
                Padded(Bytes(old(areas), s)[done..done + chunkLen]))]
      ensures crc == Crcs.Crc32Of(Crcs.Poly32C(), Bytes(old(areas), s)[done..done + chunkLen], seed)
    {
      var readLen := Span(chunkLen);
      var buf := ReadExact(s.ext, s.off + done, readLen);
      SliceOfSlice(areas[s.ext], s.off, s.len, done, chunkLen, readLen);
      crc := Crcs.Crc32C(buf[..chunkLen], seed);
      WriteAll(eid, wm + done, buf[..chunkLen] + Zeros(readLen - chunkLen));
    }

    /** The next chunk of a copy that started on `base`. */
    method NextChunk(eid: nat, wm: nat, s: Segment, done: nat, seed: nat, ghost base: Disk)
      returns (crc: nat, chunkLen: nat)
      requires Copying(base, eid, wm, s, done, areas) && done < s.len && done % GRID == 0 && seed < U32_LIMIT
      modifies this
      ensures chunkLen == if s.len - done < GRID then s.len - done else GRID
      ensures Copying(base, eid, wm, s, done + chunkLen, areas)
      ensures crc == Crcs.Crc32Of(Crcs.Poly32C(), Bytes(base, s)[done..done + chunkLen], seed)
    {
      chunkLen := if s.len - done < GRID then s.len - done else GRID;
      ChunkFits(done, chunkLen, s.len);
      Extends(base[eid], wm, Bytes(base, s), done, chunkLen);
      crc := CopyChunk(eid, wm, s, done, chunkLen, seed);
    }

    /** Copies a segment chunk by chunk to `wm` in extent `eid`, and computes its checksums on the way.
        The tail of the last sector is zeroed; nothing else changes. */
    method CopySegment(eid: nat, wm: nat, s: Segment) returns (seg: Segment, wm': nat)
      requires eid < |areas| && wm + Span(s.len) <= |areas[eid]|
      requires s.ext < |areas| && s.ext != eid && s.off + Span(s.len) <= |areas[s.ext]|
      modifies this
      ensures areas == old(areas)[eid := Overlay(old(areas)[eid], wm, Padded(Bytes(old(areas), s)))]
      ensures seg == Segment(eid, wm, s.len, Grid(Bytes(old(areas), s)))
      ensures wm' == wm + Span(s.len)
    {
      ghost var data := Bytes(areas, s);
      var crcs: seq<nat>, partial: nat, partialLen: nat, done: nat := [], 0, 0, 0;
      CopyStarts(areas, eid, wm, s);
      while done < s.len
        invariant Progress(data, done, crcs, partial, partialLen)
        invariant Copying(old(areas), eid, wm, s, done, areas)
      {
        var crc, chunkLen := NextChunk(eid, wm, s, done, partial, old(areas));
        ProgressNext(data, done, chunkLen, crcs, crc);
        partial := crc;
        partialLen := partialLen + chunkLen;
        if partialLen >= GRID {
          crcs, partial, partialLen := crcs + [partial], 0, 0;
        }
        done := done + chunkLen;
      }
      assert data[..s.len] == data;
      ProgressEnds(data, crcs, partial, partialLen);
      if partialLen > 0 {
        crcs := crcs + [partial];
      }
      seg, wm' := Segment(eid, wm, s.len, crcs), wm + Span(s.len);
    }
  }

  /** `areas` is `base` with the first `done` bytes of segment `s` copied to `wm` in extent `eid`. */
  ghost predicate Copying(base: Disk, eid: nat, wm: nat, s: Segment, done: nat, areas: Disk) {
    && eid < |base| && s.ext < |base| && s.ext != eid && done <= s.len
    && wm + Span(s.len) <= |base[eid]| && s.off + Span(s.len) <= |base[s.ext]|
    && Span(done) <= Span(s.len)
    && areas == base[eid := Overlay(base[eid], wm, PaddedAt(Bytes(base, s), done))]
  }

  lemma CopyStarts(base: Disk, eid: nat, wm: nat, s: Segment)
    requires eid < |base| && s.ext < |base| && s.ext != eid
    requires wm + Span(s.len) <= |base[eid]| && s.off + Span(s.len) <= |base[s.ext]|
    ensures Copying(base, eid, wm, s, 0, base)
  {
    assert Overlay(base[eid], wm, PaddedAt(Bytes(base, s), 0)) == base[eid];
  }

  /** The checksums so far, and possibly one that still waits to be stored. */
  ghost predicate Progress(data: seq<Byte>, done: nat, crcs: seq<nat>, partial: nat, partialLen: nat) {
    && done <= |data|
    && if partialLen == 0 then partial == 0 && (done < |data| ==> done % GRID == 0) && crcs + Grid(data[done..]) == Grid(data)
       else done == |data| && crcs + [partial] == Grid(data)
  }

  lemma ProgressNext(data: seq<Byte>, done: nat, chunkLen: nat, crcs: seq<nat>, crc: nat)
    requires Progress(data, done, crcs, 0, 0) && done < |data|
    requires chunkLen == if |data| - done < GRID then |data| - done else GRID
    requires crc == Checksum(data[done..done + chunkLen])
    ensures if chunkLen >= GRID then Progress(data, done + chunkLen, crcs + [crc], 0, 0)
            else Progress(data, done + chunkLen, crcs, crc, chunkLen)
  {
    ProgressStep(data, done, chunkLen, crcs);
    ChunkFits(done, chunkLen, |data|);
  }

  lemma ProgressEnds(data: seq<Byte>, crcs: seq<nat>, partial: nat, partialLen: nat)
    requires Progress(data, |data|, crcs, partial, partialLen)
    ensures Grid(data) == if partialLen > 0 then crcs + [partial] else crcs
  {
    assert data[|data|..] == [];
  }

  lemma ProgressStep(data: seq<Byte>, done: nat, chunkLen: nat, crcs: seq<nat>)
    requires done < |data| && crcs + Grid(data[done..]) == Grid(data)
    requires chunkLen == if |data| - done < GRID then |data| - done else GRID
    ensures (crcs + [Checksum(data[done..done + chunkLen])]) + Grid(data[done + chunkLen..]) == Grid(data)
    ensures chunkLen < GRID ==> crcs + [Checksum(data[done..done + chunkLen])] == Grid(data)
  {
    ChunkOf(data, done, chunkLen);
    GridStep(data[done..], chunkLen);
    Regroup(crcs, Checksum(data[done..done + chunkLen]), Grid(data[done + chunkLen..]));
  }

  lemma ChunkOf(data: seq<Byte>, done: nat, n: nat)
    requires done + n <= |data|
    ensures data[done..][..n] == data[done..done + n] && data[done..][n..] == data[done + n..]
    ensures done + n == |data| ==> data[done + n..] == []
  {
  }

  lemma Regroup(crcs: seq<nat>, crc: nat, rest: seq<nat>)
    ensures (crcs + [crc]) + rest == crcs + ([crc] + rest)
    ensures (crcs + [crc]) + [] == crcs + [crc]
  {
  }

  lemma SliceOfSlice(area: seq<Byte>, off: nat, len: nat, done: nat, n: nat, m: nat)
    requires off + len <= |area| && done + n <= len && n <= m && off + done + m <= |area|
    ensures area[off + done..off + done + m][..n] == area[off..off + len][done..done + n]
  {
    var x, y := area[off + done..off + done + m][..n], area[off..off + len][done..done + n];
    forall i | 0 <= i < n ensures x[i] == y[i] {
      assert area[off..off + len][done + i] == area[off + (done + i)];
    }
  }

  /** Data and the zeros that fill its last sector. */
  function Padded(data: seq<Byte>): (r: seq<Byte>)
    ensures |r| == Span(|data|)
  {
    data + Zeros(Span(|data|) - |data|)
  }

  /** What has been written after `done` bytes: whole sectors of data, padded when the end is reached. */
  function PaddedAt(data: seq<Byte>, done: nat): (r: seq<Byte>)
    requires done <= |data|
    ensures |r| == Span(done)
  {
    Padded(data[..done])
  }

  lemma SpanAdds(a: nat, m: nat, len: nat)
    requires a == 4096 * m
    ensures Span(a) == a && Span(a + len) == a + Span(len)
  {
  }

  lemma SpanGrows(a: nat, len: nat)
    requires a <= len
    ensures Span(a) <= Span(len)
  {
  }

  lemma ChunkFits(done: nat, chunkLen: nat, len: nat)
    requires done < len && done % GRID == 0 && chunkLen == if len - done < GRID then len - done else GRID
    ensures Span(done) == done && done + Span(chunkLen) == Span(done + chunkLen) <= Span(len)
    ensures done + chunkLen < len ==> (done + chunkLen) % GRID == 0
  {
    SpanAdds(done, 16 * (done / GRID), chunkLen);
    SpanGrows(done + chunkLen, len);
  }

  lemma GridStep(data: seq<Byte>, chunkLen: nat)
    requires data != [] && chunkLen == if |data| < GRID then |data| else GRID
    ensures Grid(data) == [Checksum(data[..chunkLen])] + Grid(data[chunkLen..])
  {
    if |data| <= GRID {
      assert data[..chunkLen] == data && data[chunkLen..] == [];
    }
  }

  lemma OverlayTwice(area: seq<Byte>, at: nat, x: seq<Byte>, y: seq<Byte>)
    requires at + |x| + |y| <= |area|
    ensures Overlay(Overlay(area, at, x), at + |x|, y) == Overlay(area, at, x + y)
  {
  }

  lemma PaddedGrows(data: seq<Byte>, done: nat, chunkLen: nat)
    requires done + chunkLen <= |data| && done % 4096 == 0
    ensures PaddedAt(data, done) == data[..done]
    ensures PaddedAt(data, done + chunkLen) == data[..done] + Padded(data[done..done + chunkLen])
  {
    assert data[..done + chunkLen] == data[..done] + data[done..done + chunkLen];
    assert Span(done + chunkLen) == done + Span(chunkLen);
  }

  lemma Extends(area: seq<Byte>, wm: nat, data: seq<Byte>, done: nat, chunkLen: nat)
    requires done < |data| && done % GRID == 0 && chunkLen == if |data| - done < GRID then |data| - done else GRID
    requires wm + Span(|data|) <= |area|
    ensures Span(done) == done && done + Span(chunkLen) == Span(done + chunkLen) <= Span(|data|)
    ensures Overlay(Overlay(area, wm, PaddedAt(data, done)), wm + done, Padded(data[done..done + chunkLen])) ==
      Overlay(area, wm, PaddedAt(data, done + chunkLen))
  {
    ChunkFits(done, chunkLen, |data|);
    PaddedGrows(data, done, chunkLen);
    OverlayTwice(area, wm, data[..done], Padded(data[done..done + chunkLen]));
  }

  /** A further chunk adds one checksum, when whole units precede it. */
  lemma {:induction false} GridAppend(x: seq<Byte>, y: seq<Byte>)
    requires |x| % GRID == 0 && 0 < |y| <= GRID
    ensures Grid(x + y) == Grid(x) + [Checksum(y)]
    decreases |x|
  {
    if x == [] {
      assert x + y == y;
    } else {
      GridAppend(x[GRID..], y);
      TailAppend(x, y, GRID);
      GridOfTail(x, x[GRID..]);
      GridOfTail(x + y, x[GRID..] + y);
    }
  }

  lemma TailAppend(x: seq<Byte>, y: seq<Byte>, n: nat)
    requires n <= |x|
    ensures (x + y)[..n] == x[..n] && (x + y)[n..] == x[n..] + y
  {
  }

  lemma GridOfTail(data: seq<Byte>, tail: seq<Byte>)
    requires |data| >= GRID && tail == data[GRID..]
    ensures Grid(data) == [Checksum(data[..GRID])] + Grid(tail)
  {
    GridStep(data, GRID);
  }
}
