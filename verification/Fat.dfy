/**
 The FAT16 reader: geometry, cluster chains and read_raw_data. Layout as in the Microsoft FAT
 specification (fatgen103, version 1.03), sections "FAT Data Structure" and "FAT Directory Structure".
 */
module Fat {
  import opened Words

  type U32 = n: int | 0 <= n < U32_LIMIT

  const U32_LIMIT: int := 0x1_0000_0000
  const IMAGE_SIZE: nat := 0x400_0000
  const END_OF_CHAIN: nat := 0xfff7
  const DIR_ENTRY_SIZE: nat := 32

  /** The file system region of memory, from FS_BASE on. The kernel only reads it. */
  type Image = d: seq<Byte> | |d| == IMAGE_SIZE witness seq(IMAGE_SIZE, _ => 0)

  function ByteAt(d: Image, i: nat): Byte { if i < IMAGE_SIZE then d[i] else 0 }

  function U16At(d: Image, i: nat): nat { ByteAt(d, i) + 256 * ByteAt(d, i + 1) }

  function U32At(d: Image, i: nat): U32 { U16At(d, i) + 0x1_0000 * U16At(d, i + 2) }

  function Times(a: nat, b: nat): nat { a * b }

  // Geometry, from the BIOS parameter block

  /** Offset of the BIOS parameter block: the partition's first sector, from the partition table. */
  function Bpb(d: Image): nat { U32At(d, 0x1be + 8) * 512 % U32_LIMIT }

  function BytesPerSector(d: Image): nat { U16At(d, Bpb(d) + 11) }

  function SectorsPerCluster(d: Image): nat { ByteAt(d, Bpb(d) + 13) }

  function ReservedSectors(d: Image): nat { U16At(d, Bpb(d) + 14) }

  function FatCount(d: Image): nat { ByteAt(d, Bpb(d) + 16) }

  function RootEntryCount(d: Image): nat { U16At(d, Bpb(d) + 17) }

  function SectorsPerFat(d: Image): nat { U16At(d, Bpb(d) + 22) }

  function ClusterSize(d: Image): nat { Times(BytesPerSector(d), SectorsPerCluster(d)) }

  function FatStart(d: Image): nat { Bpb(d) + Times(ReservedSectors(d), BytesPerSector(d)) }

  /** Where the data of clusters starts, before any 32-bit wrap-around. */
  function DataArea(d: Image): nat {
    Times(ReservedSectors(d), BytesPerSector(d)) +
    Times(Times(FatCount(d), SectorsPerFat(d)), BytesPerSector(d)) +
    RootEntryCount(d) * DIR_ENTRY_SIZE
  }

  function ClusterStart(d: Image, c: nat): nat
    requires c >= 2
  {
    Bpb(d) + DataArea(d) + Times(c - 2, ClusterSize(d))
  }

  /** get_cluster_offset: the same in the uint32_t arithmetic of the code. */
  function ClusterOffset(d: Image, c: nat): U32
    requires c >= 2
  {
    (DataArea(d) + Times(c - 2, ClusterSize(d))) % U32_LIMIT
  }

  function DirectoryStart(d: Image): nat {
    Bpb(d) + Times(ReservedSectors(d) + Times(FatCount(d), SectorsPerFat(d)), BytesPerSector(d)) % U32_LIMIT
  }

  // Cluster chains

  /** get_cluster_value: the FAT entry of a cluster. */
  function NextCluster(d: Image, c: nat): nat { U16At(d, FatStart(d) + 2 * c) }

  /** The cluster i links after c. */
  function Nth(d: Image, c: nat, i: nat): nat {
    if i == 0 then c else NextCluster(d, Nth(d, c, i - 1))
  }

  /** The number of clusters of the chain from c, counted up to a bound. A cyclic chain has as many as one likes. */
  function Length(d: Image, c: nat, bound: nat): (n: nat)
    ensures n <= bound
    decreases bound
  {
    if bound == 0 || c >= END_OF_CHAIN then 0 else 1 + Length(d, NextCluster(d, c), bound - 1)
  }

  lemma {:induction false} NthNext(d: Image, c: nat, i: nat)
    ensures Nth(d, NextCluster(d, c), i) == Nth(d, c, i + 1)
  {
    if i > 0 {
      NthNext(d, c, i - 1);
    }
  }

  /** Length counts exactly the clusters before the first end mark. */
  lemma {:induction false} LengthIs(d: Image, c: nat, bound: nat)
    ensures var n := Length(d, c, bound);
            && (forall i :: 0 <= i < n ==> Nth(d, c, i) < END_OF_CHAIN)
            && (n < bound ==> Nth(d, c, n) >= END_OF_CHAIN)
    decreases bound
  {
    if bound > 0 && c < END_OF_CHAIN {
      LengthIs(d, NextCluster(d, c), bound - 1);
      forall i | 0 <= i < Length(d, c, bound) ensures Nth(d, c, i) < END_OF_CHAIN {
        if i > 0 {
          NthNext(d, c, i - 1);
        }
      }
      NthNext(d, c, Length(d, NextCluster(d, c), bound - 1));
    }
  }

  /** The byte at a position of the concatenated cluster data of the chain from c. */
  function FileByte(d: Image, c: nat, p: nat): Byte
    requires ClusterSize(d) > 0
  {
    var k := Nth(d, c, p / ClusterSize(d));
    if k >= 2 then ByteAt(d, ClusterStart(d, k) + p % ClusterSize(d)) else 0
  }

  function FileBytes(d: Image, c: nat, from: nat, n: nat): seq<Byte>
    requires ClusterSize(d) > 0
  {
    seq<Byte>(n, k requires 0 <= k => FileByte(d, c, from + k))
  }

  lemma ByteInCluster(d: Image, c: nat, q: nat, t: nat)
    requires t < ClusterSize(d) && Nth(d, c, q) >= 2
    ensures FileByte(d, c, Times(q, ClusterSize(d)) + t) == ByteAt(d, ClusterStart(d, Nth(d, c, q)) + t)
  {
    DivUnique(q * ClusterSize(d) + t, ClusterSize(d), q, t);
  }

  // Reading

  /** A cluster of the data area whose data lies inside the image. */
  ghost predicate InData(d: Image, c: nat) {
    2 <= c < END_OF_CHAIN && ClusterStart(d, c) + ClusterSize(d) <= IMAGE_SIZE
  }

  /** How many clusters the first n bytes of a file need. */
  function ClustersFor(d: Image, n: nat): nat
    requires ClusterSize(d) > 0
  {
    (n + ClusterSize(d) - 1) / ClusterSize(d)
  }

  /** Every cluster of the chain that a read up to the given position can touch holds data. */
  ghost predicate Readable(d: Image, c: nat, end: nat)
    requires ClusterSize(d) > 0
  {
    forall i :: 0 <= i < Length(d, c, ClustersFor(d, end)) ==> InData(d, Nth(d, c, i))
  }

  lemma OffsetInImage(d: Image, c: nat)
    requires InData(d, c)
    ensures Bpb(d) + ClusterOffset(d, c) == ClusterStart(d, c)
  {
  }

  /** memcpy out of the image. */
  method CopyOut(d: Image, from: nat, buffer: array<Byte>, at: nat, n: nat)
    requires at + n <= buffer.Length && from + n <= IMAGE_SIZE
    modifies buffer
    ensures forall k :: at <= k < at + n ==> buffer[k] == ByteAt(d, from + (k - at))
    ensures forall k :: 0 <= k < buffer.Length && !(at <= k < at + n) ==> buffer[k] == old(buffer[k])
  {
    for i := 0 to n
      invariant forall k :: at <= k < at + i ==> buffer[k] == ByteAt(d, from + (k - at))
      invariant forall k :: 0 <= k < buffer.Length && !(at <= k < at + i) ==> buffer[k] == old(buffer[k])
    {
      buffer[at + i] := d[from + i];
    }
  }

  /** Where a read of size bytes at a position stops: at its end, or at the end of the chain. */
  function ReadLength(d: Image, c: nat, position: nat, size: nat): int
    requires ClusterSize(d) > 0
  {
    if size <= Available(d, c, position, size) then size else Available(d, c, position, size)
  }

  /** The bytes from the position to the end of the chain, or of the clusters the read needs. */
  function Available(d: Image, c: nat, position: nat, size: nat): int
    requires ClusterSize(d) > 0
  {
    Times(Length(d, c, ClustersFor(d, position + size)), ClusterSize(d)) - position
  }

  /** The sum of offset and size in the first copy reaches 2^32. The test then always takes it to fit the cluster. */
  predicate CopyWraps(d: Image, position: nat, size: nat)
    requires ClusterSize(d) > 0
  {
    position % ClusterSize(d) + size >= U32_LIMIT
  }

  /** The loop's counter of bytes read comes within a cluster of 2^32 before the size is reached. */
  predicate LoopWraps(d: Image, c: nat, position: nat, size: nat)
    requires ClusterSize(d) > 0
  {
    Available(d, c, position, size) >= U32_LIMIT
  }

  /**
   How a read ends. Halted: its assertion fails. Overrun: one memcpy is asked for all bytes, past the
   end of its cluster, and they count as read. Lost: the counter wraps, and copying goes on past the
   size. Done: this many bytes were read.
   */
  datatype Outcome = Halted | Overrun | Lost | Done(n: int)

  /** The read finds its first cluster: no end mark among the position / ClusterSize links to follow. */
  ghost predicate Reaches(d: Image, c: nat, position: nat)
    requires ClusterSize(d) > 0
  {
    forall i :: 0 < i <= position / ClusterSize(d) ==> Nth(d, c, i) < END_OF_CHAIN
  }

  lemma LengthAtLeast(d: Image, c: nat, bound: nat, n: nat)
    requires n <= bound && forall j :: 0 <= j < n ==> Nth(d, c, j) < END_OF_CHAIN
    ensures Length(d, c, bound) >= n
  {
    LengthIs(d, c, bound);
  }

  lemma LengthExactly(d: Image, c: nat, bound: nat, n: nat)
    requires n < bound && (forall j :: 0 <= j < n ==> Nth(d, c, j) < END_OF_CHAIN) && Nth(d, c, n) >= END_OF_CHAIN
    ensures Length(d, c, bound) == n
  {
    LengthAtLeast(d, c, bound, n);
    LengthIs(d, c, bound);
  }

  lemma TimesNext(q: nat, cs: nat)
    ensures Times(q + 1, cs) == Times(q, cs) + cs
  {
  }

  lemma TimesGrows(a: nat, b: nat, cs: nat)
    requires a <= b
    ensures Times(a, cs) <= Times(b, cs)
  {
    assert (b - a) * cs >= 0;
  }

  lemma Split(position: nat, cs: nat)
    requires cs > 0
    ensures position == Times(position / cs, cs) + position % cs && position % cs < cs
  {
  }

  /** A position below the end lies in one of the clusters the end needs; the clusters needed reach the end. */
  lemma Needed(d: Image, q: nat, end: nat)
    requires ClusterSize(d) > 0
    ensures Times(q, ClusterSize(d)) < end <==> q < ClustersFor(d, end)
  {
    hide ClusterSize, Times;
    var cs, b := ClusterSize(d), ClustersFor(d, end);
    Split(end + cs - 1, cs);
    if q < b {
      TimesGrows(q + 1, b, cs);
      TimesNext(q, cs);
    } else {
      TimesGrows(b, q, cs);
    }
  }

  /** The read is at cluster q, and all clusters before it were in the chain. */
  ghost predicate At(d: Image, c: nat, q: nat, end: nat)
    requires ClusterSize(d) > 0
  {
    q <= ClustersFor(d, end) && forall j :: 0 <= j < q ==> Nth(d, c, j) < END_OF_CHAIN
  }

  /**
   A cluster that is part of the chain and has bytes before the end can be read, and the next one can
   be looked at.
   */
  lemma TouchCluster(d: Image, c: nat, q: nat, end: nat)
    requires ClusterSize(d) > 0 && Readable(d, c, end) && At(d, c, q, end)
    requires Nth(d, c, q) < END_OF_CHAIN && Times(q, ClusterSize(d)) < end
    ensures InData(d, Nth(d, c, q)) && At(d, c, q + 1, end)
  {
    Needed(d, q, end);
    LengthAtLeast(d, c, ClustersFor(d, end), q + 1);
  }

  /** Copy n bytes from offset t of cluster q of the chain. */
  method CopyFromCluster(d: Image, ghost c: nat, index: nat, ghost q: nat, t: nat, buffer: array<Byte>, at: nat, n: nat)
    requires ClusterSize(d) > 0 && InData(d, index) && index == Nth(d, c, q) && t + n <= ClusterSize(d)
        && at + n <= buffer.Length
    modifies buffer
    ensures forall k :: at <= k < at + n ==> buffer[k] == FileByte(d, c, Times(q, ClusterSize(d)) + t + (k - at))
    ensures forall k :: 0 <= k < buffer.Length && !(at <= k < at + n) ==> buffer[k] == old(buffer[k])
  {
    OffsetInImage(d, index);
    CopyOut(d, Bpb(d) + ClusterOffset(d, index) + t, buffer, at, n);
    forall k | at <= k < at + n ensures buffer[k] == FileByte(d, c, Times(q, ClusterSize(d)) + t + (k - at)) {
      ByteInCluster(d, c, q, t + (k - at));
    }
  }

  /** At the end of a read: all of it was copied, or the chain ended. */
  lemma ReadEnds(d: Image, c: nat, position: nat, size: nat, q: nat, n: nat)
    requires ClusterSize(d) > 0 && n <= size && At(d, c, q, position + size)
    requires if n == size then position + size <= Times(q, ClusterSize(d))
             else Times(q, ClusterSize(d)) == position + n && Nth(d, c, q) >= END_OF_CHAIN
    ensures n == ReadLength(d, c, position, size)
  {
    var bound := ClustersFor(d, position + size);
    LengthAtLeast(d, c, bound, q);
    if n == size {
      TimesGrows(q, Length(d, c, bound), ClusterSize(d));
    } else {
      Needed(d, q, position + size);
      LengthExactly(d, c, bound, q);
    }
  }

  lemma AtStart(d: Image, c: nat, position: nat, size: nat)
    requires ClusterSize(d) > 0 && Reaches(d, c, position) && (position > 0 ==> c < END_OF_CHAIN)
    ensures At(d, c, position / ClusterSize(d), position + size)
    ensures position > 0 ==> Nth(d, c, position / ClusterSize(d)) < END_OF_CHAIN
  {
    var cs := ClusterSize(d);
    var count := position / cs;
    Split(position, cs);
    if count > 0 {
      TimesNext(count - 1, cs);
      Needed(d, count - 1, position + size);
      assert position > 0;
    }
    forall j | 0 <= j < count ensures Nth(d, c, j) < END_OF_CHAIN {
      if j == 0 {
        assert position > 0;
      }
    }
  }

  /** The first loop of read_raw_data: follow count links; an end mark among them is a failed assertion. */
  method FollowLinks(d: Image, clusterIndex: nat, count: nat) returns (index: nat, halted: bool)
    ensures halted <==> exists i :: 0 < i <= count && Nth(d, clusterIndex, i) >= END_OF_CHAIN
    ensures !halted ==> index == Nth(d, clusterIndex, count)
  {
    index, halted := clusterIndex, false;
    for i := 0 to count
      invariant index == Nth(d, clusterIndex, i)
      invariant forall j :: 0 < j <= i ==> Nth(d, clusterIndex, j) < END_OF_CHAIN
    {
      index := NextCluster(d, index);
      if index >= END_OF_CHAIN {
        assert Nth(d, clusterIndex, i + 1) >= END_OF_CHAIN;
        halted := true;
        return;
      }
    }
  }

  /** A cluster of the chain that the read needs counts among the bytes available. */
  lemma AvailableAt(d: Image, c: nat, q: nat, position: nat, size: nat)
    requires ClusterSize(d) > 0 && At(d, c, q, position + size)
    ensures Times(q, ClusterSize(d)) - position <= Available(d, c, position, size)
  {
    LengthAtLeast(d, c, ClustersFor(d, position + size), q);
    TimesGrows(q, Length(d, c, ClustersFor(d, position + size)), ClusterSize(d));
  }

  /** At its end the loop has passed all bytes available. */
  lemma AvailableEnds(d: Image, c: nat, q: nat, position: nat, size: nat)
    requires ClusterSize(d) > 0 && At(d, c, q, position + size)
    requires position + size <= Times(q, ClusterSize(d)) || Nth(d, c, q) >= END_OF_CHAIN
    ensures Available(d, c, position, size) <= Times(q, ClusterSize(d)) - position
  {
    hide ClusterSize, Times;
    var bound := ClustersFor(d, position + size);
    if position + size <= Times(q, ClusterSize(d)) {
      Needed(d, q, position + size);
    } else {
      Needed(d, q, position + size);
      LengthExactly(d, c, bound, q);
    }
    TimesGrows(Length(d, c, bound), q, ClusterSize(d));
  }

  /** The bytes so far, and no others, are in the buffer. */
  ghost predicate Filled(d: Image, c: nat, position: nat, buffer: seq<Byte>, before: seq<Byte>, n: nat)
    requires ClusterSize(d) > 0
  {
    && |buffer| == |before| && n <= |buffer|
    && (forall k :: 0 <= k < n ==> buffer[k] == FileByte(d, c, position + k))
    && (forall k :: n <= k < |buffer| ==> buffer[k] == before[k])
  }

  /** One turn of the loop copies up to a cluster, if it and the buffer have room for it. */
  method CopyNext(d: Image, ghost c: nat, index: nat, ghost q: nat, buffer: array<Byte>, readSize: nat,
      ghost position: nat, n: nat,
                  ghost before: seq<Byte>)
    requires ClusterSize(d) > 0 && InData(d, index) && index == Nth(d, c, q) && n <= ClusterSize(d)
        && readSize + n <= buffer.Length
    requires Times(q, ClusterSize(d)) == position + readSize && Filled(d, c, position, buffer[..], before, readSize)
    modifies buffer
    ensures Filled(d, c, position, buffer[..], before, readSize + n)
  {
    hide FileByte, ClusterSize, InData, Times;
    CopyFromCluster(d, c, index, q, 0, buffer, readSize, n);
  }

  /** The second loop: whole clusters from cluster first on, until size bytes are read or the chain ends. */
  method ReadClusters(d: Image, ghost c: nat, start: nat, ghost first: nat, buffer: array<Byte>, done: nat,
      ghost position: nat, size: U32,
                      ghost before: seq<Byte>)
    returns (r: Outcome)
    requires ClusterSize(d) > 0 && done <= size
    requires Readable(d, c, position + size) && At(d, c, first, position + size) && start == Nth(d, c, first)
    requires Times(first, ClusterSize(d)) == position + done
        || (done == size && position + size <= Times(first, ClusterSize(d)))
    requires Times(first, ClusterSize(d)) < position + U32_LIMIT
    requires !LoopWraps(d, c, position, size) ==> ReadLength(d, c, position, size) <= buffer.Length
    requires Filled(d, c, position, buffer[..], before, done)
    modifies buffer
    ensures r == if LoopWraps(d, c, position, size) then Lost else Done(ReadLength(d, c, position, size))
    ensures r.Done? ==> done <= r.n <= size && Filled(d, c, position, buffer[..], before, r.n)
  {
    hide FileByte, Length, ClustersFor, Readable, InData, At, ClusterSize, Times, Filled, Available;
    var clusterSize := ClusterSize(d);
    var index, readSize := start, done;
    ghost var q: nat, end: nat := first, position + size;
    while readSize < size && index < END_OF_CHAIN
      invariant done <= readSize <= size && At(d, c, q, end) && index == Nth(d, c, q)
      invariant Times(q, clusterSize) == position + readSize || (readSize == size && end <= Times(q, clusterSize))
      invariant Times(q, clusterSize) < position + U32_LIMIT
      invariant Filled(d, c, position, buffer[..], before, readSize)
      decreases size - readSize
    {
      TouchCluster(d, c, q, end);
      TimesNext(q, clusterSize);
      AvailableAt(d, c, q + 1, position, size);
      if readSize + clusterSize >= U32_LIMIT {
        return Lost;
      }
      var n := if (readSize + clusterSize) % U32_LIMIT >= size then size - readSize else clusterSize;
      if readSize + n > buffer.Length {
        return Lost;
      }
      CopyNext(d, c, index, q, buffer, readSize, position, n, before);
      readSize := readSize + n;
      index := NextCluster(d, index);
      q := q + 1;
    }
    AvailableEnds(d, c, q, position, size);
    ReadEnds(d, c, position, size, q, readSize);
    return Done(readSize);
  }

  /** The copy of the rest of the first cluster. */
  method CopyFirst(d: Image, ghost c: nat, index: nat, ghost count: nat, offset: nat, buffer: array<Byte>,
      ghost position: nat, n: nat)
    requires ClusterSize(d) > 0 && InData(d, index) && index == Nth(d, c, count) && offset + n <= ClusterSize(d)
        && n <= buffer.Length
    requires position == Times(count, ClusterSize(d)) + offset
    modifies buffer
    ensures Filled(d, c, position, buffer[..], old(buffer[..]), n)
  {
    hide FileByte, ClusterSize, InData, Times;
    CopyFromCluster(d, c, index, count, offset, buffer, 0, n);
  }

  lemma HaltedIs(d: Image, c: nat, position: nat)
    requires ClusterSize(d) > 0
    ensures !Reaches(d, c, position) <==> exists i :: 0 < i <= position / ClusterSize(d) && Nth(d, c, i) >= END_OF_CHAIN
  {
    hide ClusterSize;
    if !Reaches(d, c, position) {
      var i :| 0 < i <= position / ClusterSize(d) && !(Nth(d, c, i) < END_OF_CHAIN);
      assert Nth(d, c, i) >= END_OF_CHAIN;
    }
  }

  lemma FilledNothing(d: Image, c: nat, position: nat, buffer: seq<Byte>)
    requires ClusterSize(d) > 0
    ensures Filled(d, c, position, buffer, buffer, 0)
  {
  }

  lemma FilledIs(d: Image, c: nat, position: nat, buffer: seq<Byte>, before: seq<Byte>, n: nat)
    requires ClusterSize(d) > 0 && Filled(d, c, position, buffer, before, n)
    ensures n <= |buffer| == |before| && buffer[..n] == FileBytes(d, c, position, n) && buffer[n..] == before[n..]
  {
    hide FileByte, ClusterSize;
  }

  /** The buffer has room for what a read that goes well delivers. */
  predicate Fits(d: Image, c: nat, position: nat, size: nat, room: nat)
    requires ClusterSize(d) > 0
  {
    CopyWraps(d, position, size) || LoopWraps(d, c, position, size) || ReadLength(d, c, position, size) <= room
  }

  /** What the first copy takes belongs to the read, unless the counter is to wrap. */
  lemma FirstFits(d: Image, c: nat, count: nat, offset: nat, position: nat, size: nat, n: nat)
    requires ClusterSize(d) > 0 && At(d, c, count + 1, position + size)
        && position == Times(count, ClusterSize(d)) + offset
    requires n <= size && offset + n <= ClusterSize(d)
    ensures n <= ReadLength(d, c, position, size)
  {
    hide ClusterSize, Times, Available, Length;
    TimesNext(count, ClusterSize(d));
    AvailableAt(d, c, count + 1, position, size);
  }

  /** A read that starts inside a cluster. */
  method ReadFromOffset(d: Image, ghost c: nat, index: nat, ghost count: nat, offset: nat, buffer: array<Byte>,
      ghost position: nat, size: U32)
    returns (r: Outcome)
    requires 0 < offset < ClusterSize(d) < U32_LIMIT && position == Times(count, ClusterSize(d)) + offset
    requires Readable(d, c, position + size) && At(d, c, count, position + size)
        && index == Nth(d, c, count) < END_OF_CHAIN
    requires offset + size >= U32_LIMIT || LoopWraps(d, c, position, size)
        || ReadLength(d, c, position, size) <= buffer.Length
    modifies buffer
    ensures r == if offset + size >= U32_LIMIT then Overrun
                 else if LoopWraps(d, c, position, size) then Lost
                 else Done(ReadLength(d, c, position, size))
    ensures r.Done? ==> 0 <= r.n <= size && Filled(d, c, position, buffer[..], old(buffer[..]), r.n)
  {
    hide FileByte, Length, ClustersFor, Readable, InData, At, ClusterSize, Times, Filled, Available, ReadLength,
         LoopWraps;
    ghost var before := buffer[..];
    var clusterSize := ClusterSize(d);
    if offset + size >= U32_LIMIT {
      return Overrun;
    }
    TimesNext(count, clusterSize);
    TouchCluster(d, c, count, position + size);
    var n := if (offset + size) % U32_LIMIT <= clusterSize then size else clusterSize - offset;
    FirstFits(d, c, count, offset, position, size, n);
    if n > buffer.Length {
      return Lost;
    }
    CopyFirst(d, c, index, count, offset, buffer, position, n);
    r := ReadClusters(d, c, NextCluster(d, index), count + 1, buffer, n, position, size, before);
  }

  /** read_raw_data, for every position and size of 32 bits. */
  method ReadRawData(d: Image, clusterIndex: nat, buffer: array<Byte>, position: U32, size: U32) returns (r: Outcome)
    requires ClusterSize(d) > 0 && Fits(d, clusterIndex, position, size, buffer.Length)
    requires Readable(d, clusterIndex, position + size) && (position > 0 ==> clusterIndex < END_OF_CHAIN)
    modifies buffer
    ensures r == if !Reaches(d, clusterIndex, position) then Halted
                 else if CopyWraps(d, position, size) then Overrun
                 else if LoopWraps(d, clusterIndex, position, size) then Lost
                 else Done(ReadLength(d, clusterIndex, position, size))
    ensures r.Halted? ==> buffer[..] == old(buffer[..])
    ensures r.Done? ==> 0 <= r.n <= size && r.n <= buffer.Length
    ensures r.Done? ==>
        buffer[..r.n] == FileBytes(d, clusterIndex, position, r.n) && buffer[r.n..] == old(buffer[r.n..])
  {
    hide FileByte, Length, ClustersFor, Readable, InData, At, ClusterSize, Times, Filled, ReadLength, LoopWraps,
         Reaches;
    ghost var before := buffer[..];
    var count, offset := position / ClusterSize(d), position % ClusterSize(d);
    Split(position, ClusterSize(d));
    SmallCluster(d);
    var index, halted := FollowLinks(d, clusterIndex, count);
    HaltedIs(d, clusterIndex, position);
    if halted {
      return Halted;
    }
    AtStart(d, clusterIndex, position, size);
    FilledNothing(d, clusterIndex, position, before);
    if offset != 0 {
      r := ReadFromOffset(d, clusterIndex, index, count, offset, buffer, position, size);
    } else {
      r := ReadClusters(d, clusterIndex, index, count, buffer, 0, position, size, before);
    }
    if r.Done? {
      FilledIs(d, clusterIndex, position, buffer[..], before, r.n);
    }
  }

  lemma SmallCluster(d: Image)
    ensures ClusterSize(d) < U32_LIMIT
  {
    SmallProduct(BytesPerSector(d), SectorsPerCluster(d));
  }

  lemma SmallProduct(a: nat, b: nat)
    requires a <= 0xffff && b <= 0xff
    ensures Times(a, b) <= 0xfeff01
  {
    assert (0xffff - a) * b >= 0;
    assert 0xffff * (0xff - b) >= 0;
  }

  // What a read returns, in terms of the chain

  /** The chain from c has exactly n clusters. */
  ghost predicate ChainOf(d: Image, c: nat, n: nat) {
    (forall j :: 0 <= j < n ==> Nth(d, c, j) < END_OF_CHAIN) && Nth(d, c, n) >= END_OF_CHAIN
  }

  /** A read inside a chain of n clusters stops at its size or at the end of the chain, whichever comes first. */
  lemma ReadLengthInChain(d: Image, c: nat, n: nat, position: nat, size: nat)
    requires ClusterSize(d) > 0 && ChainOf(d, c, n) && position <= Times(n, ClusterSize(d))
    ensures var rest := Times(n, ClusterSize(d)) - position;
            ReadLength(d, c, position, size) == if size <= rest then size else rest
  {
    hide Times, ClusterSize;
    var bound := ClustersFor(d, position + size);
    if n < bound {
      LengthExactly(d, c, bound, n);
    } else {
      LengthAtLeast(d, c, bound, bound);
      Needed(d, bound, position + size);
      TimesGrows(bound, n, ClusterSize(d));
    }
  }

  lemma {:induction false} NthShift(d: Image, c: nat, i: nat, t: nat)
    ensures Nth(d, c, i + t) == Nth(d, Nth(d, c, i), t)
  {
    if t > 0 {
      NthShift(d, c, i, t - 1);
    }
  }

  /** A chain that ends visits no cluster twice. */
  lemma EndingChainDistinct(d: Image, c: nat, n: nat, i: nat, j: nat)
    requires ChainOf(d, c, n) && i < j < n
    ensures Nth(d, c, i) != Nth(d, c, j)
  {
    var k := i + (n - j);
    assert Nth(d, c, k) < END_OF_CHAIN;
    NthShift(d, c, i, n - j);
    NthShift(d, c, j, n - j);
  }

  /** There are at most m different values from lo on below lo + m. */
  lemma {:induction false} Pigeonhole(values: seq<nat>, lo: nat, m: nat)
    requires forall i :: 0 <= i < |values| ==> lo <= values[i] < lo + m
    requires forall i, j :: 0 <= i < j < |values| ==> values[i] != values[j]
    ensures |values| <= m
  {
    if values != [] {
      assert lo <= values[0] < lo + m;
      var last := lo + m - 1;
      if last in values {
        var k :| 0 <= k < |values| && values[k] == last;
        Pigeonhole(values[..k] + values[k + 1..], lo, m - 1);
      } else {
        Pigeonhole(values, lo, m - 1);
      }
    }
  }

  /** The first n clusters of the chain. */
  function Clusters(d: Image, c: nat, n: nat): (s: seq<nat>)
    ensures |s| == n && forall i :: 0 <= i < n ==> s[i] == Nth(d, c, i)
  {
    seq<nat>(n, i requires 0 <= i < n => Nth(d, c, i))
  }

  /** The clusters of a chain that ends, if their data lies in the image, are no larger than the image. */
  lemma EndingChainFits(d: Image, c: nat, n: nat)
    requires ClusterSize(d) > 0 && ChainOf(d, c, n) && forall i :: 0 <= i < n ==> InData(d, Nth(d, c, i))
    ensures Times(n, ClusterSize(d)) <= IMAGE_SIZE
  {
    hide ClusterSize, Nth, Times, InData, ChainOf;
    var cs, clusters := ClusterSize(d), Clusters(d, c, n);
    var m := IMAGE_SIZE / cs;
    forall i | 0 <= i < n ensures 2 <= clusters[i] < 2 + m {
      PlaceInImage(d, Nth(d, c, i));
    }
    forall i, j | 0 <= i < j < n ensures clusters[i] != clusters[j] {
      EndingChainDistinct(d, c, n, i, j);
    }
    Pigeonhole(clusters, 2, m);
    TimesGrows(n, m, cs);
    Split(IMAGE_SIZE, cs);
  }

  lemma PlaceInImage(d: Image, k: nat)
    requires ClusterSize(d) > 0 && InData(d, k)
    ensures 2 <= k < 2 + IMAGE_SIZE / ClusterSize(d)
  {
    hide ClusterSize, Times;
    var cs := ClusterSize(d);
    TimesNext(k - 2, cs);
    Split(IMAGE_SIZE, cs);
    if IMAGE_SIZE / cs <= k - 2 {
      TimesGrows(IMAGE_SIZE / cs, k - 2, cs);
    }
  }

  /** So on a chain that ends the counter of the loop never wraps. */
  lemma EndingChainNotLost(d: Image, c: nat, n: nat, position: nat, size: nat)
    requires ClusterSize(d) > 0 && ChainOf(d, c, n) && forall i :: 0 <= i < n ==> InData(d, Nth(d, c, i))
    ensures !LoopWraps(d, c, position, size)
  {
    var bound := ClustersFor(d, position + size);
    EndingChainFits(d, c, n);
    LengthIs(d, c, bound);
    assert Length(d, c, bound) <= n;
    TimesGrows(Length(d, c, bound), n, ClusterSize(d));
  }

  /** On a chain without an end, as in a cyclic FAT, the read still ends, with all it was asked for. */
  lemma ReadLengthCyclic(d: Image, c: nat, position: nat, size: nat)
    requires ClusterSize(d) > 0 && forall j: nat :: Nth(d, c, j) < END_OF_CHAIN
    ensures ReadLength(d, c, position, size) == size
  {
    hide Times, ClusterSize;
    var bound := ClustersFor(d, position + size);
    LengthAtLeast(d, c, bound, bound);
    Needed(d, bound, position + size);
  }

  /**
   The assertion on the way to the position fails exactly for positions at or past the end of the
   chain: also for a read of no bytes at the end of a file that fills its last cluster.
   */
  lemma HaltsPastTheEnd(d: Image, c: nat, n: nat, position: nat)
    requires ClusterSize(d) > 0 && ChainOf(d, c, n) && n > 0
    ensures Reaches(d, c, position) <==> position < Times(n, ClusterSize(d))
  {
    hide Times, ClusterSize;
    var cs := ClusterSize(d);
    var count := position / cs;
    Split(position, cs);
    if n <= count {
      TimesGrows(n, count, cs);
    } else {
      TimesGrows(count + 1, n, cs);
      TimesNext(count, cs);
    }
  }

  /** Two reads one after the other give the bytes of one. */
  lemma ConsecutiveReads(d: Image, c: nat, position: nat, m: nat, n: nat)
    requires ClusterSize(d) > 0
    ensures FileBytes(d, c, position, m) + FileBytes(d, c, position + m, n) == FileBytes(d, c, position, m + n)
  {
    hide ClusterSize, FileByte;
    var whole, tail := FileBytes(d, c, position, m + n), FileBytes(d, c, position + m, n);
    assert forall k :: 0 <= k < n ==> whole[m + k] == tail[k];
  }

  /** A chain that covers the first n bytes of a file can be read up to there. */
  lemma CoveredReads(d: Image, c: nat, position: nat, size: nat)
    requires ClusterSize(d) > 0 && Length(d, c, ClustersFor(d, position + size)) == ClustersFor(d, position + size)
    requires size > 0 || position % ClusterSize(d) != 0 || position == 0
    ensures Reaches(d, c, position) && ReadLength(d, c, position, size) == size && (position > 0 ==> c < END_OF_CHAIN)
  {
    hide Times, ClusterSize, ClustersFor;
    var bound, cs := ClustersFor(d, position + size), ClusterSize(d);
    LengthIs(d, c, bound);
    Needed(d, bound, position + size);
    Split(position, cs);
    Needed(d, position / cs, position + size);
    Needed(d, 0, position + size);
    TimesZero(cs);
    if position > 0 {
      assert Nth(d, c, 0) == c;
    }
  }

  lemma TimesZero(cs: nat)
    ensures Times(0, cs) == 0
  {
  }
}
