/**
 What an image means: a FAT16 volume as geometry, table, directory and clusters, laid out byte by byte
 as in the Microsoft FAT specification (fatgen103, version 1.03, sections "Boot Sector and BPB
 Structure", "FAT Data Structure" and "FAT Directory Structure") in the first partition of a disk. On
 such an image the accessors of the reader give back the parts of the volume.
 */
module Volumes {
  import opened Words
  import opened Fat
  import opened Names
  import opened FileTables
  import opened Files

  datatype Item = Item(name: seq<Byte>, ext: seq<Byte>, attributes: Byte, cluster: nat, size: U32)

  /** fat[c] is the table's entry of cluster c; clusters[k] is the data of cluster k + 2. */
  datatype Volume = Volume(lba: nat, bytesPerSector: nat, sectorsPerCluster: nat, reserved: nat, fatCount: nat,
                           sectorsPerFat: nat, fat: seq<nat>, dir: seq<Item>, clusters: seq<seq<Byte>>)

  function Start(v: Volume): nat { 512 * v.lba }

  function ReservedBytes(v: Volume): nat { Times(v.reserved, v.bytesPerSector) }

  function FatBytes(v: Volume): nat { Times(v.sectorsPerFat, v.bytesPerSector) }

  function ClusterBytes(v: Volume): nat { Times(v.sectorsPerCluster, v.bytesPerSector) }

  /** Offsets from the start of the partition: the root directory, and the data of cluster 2. */
  function DirOffset(v: Volume): nat { ReservedBytes(v) + Times(v.fatCount, FatBytes(v)) }

  function DataOffset(v: Volume): nat { DirOffset(v) + 32 * |v.dir| }

  predicate ItemOk(item: Item) { |item.name| == 8 && |item.ext| == 3 && item.cluster < 0x1_0000 }

  predicate FieldsOk(v: Volume) {
    && 1 <= v.lba < 0x1_0000_0000 && 1 <= v.bytesPerSector < 0x1_0000 && 1 <= v.sectorsPerCluster < 0x100
    && v.reserved < 0x1_0000 && 1 <= v.fatCount < 0x100 && v.sectorsPerFat < 0x1_0000 && |v.dir| < 0x1_0000
  }

  /** The boot sector fits the reserved sectors, the table fits one copy, and all of it fits the image. */
  ghost predicate Valid(v: Volume) {
    && FieldsOk(v)
    && ReservedBytes(v) >= 512 && 2 * |v.fat| <= FatBytes(v)
    && (forall c :: 0 <= c < |v.fat| ==> v.fat[c] < 0x1_0000)
    && (forall i :: 0 <= i < |v.dir| ==> ItemOk(v.dir[i]))
    && (forall k :: 0 <= k < |v.clusters| ==> |v.clusters[k]| == ClusterBytes(v))
    && Start(v) + DataOffset(v) + Times(|v.clusters|, ClusterBytes(v)) <= IMAGE_SIZE
  }

  // The bytes

  /** Byte k of a little-endian number. */
  function Digit(n: nat, k: nat): Byte {
    if k == 0 then n % 0x100
    else if k == 1 then n / 0x100 % 0x100
    else if k == 2 then n / 0x1_0000 % 0x100
    else n / 0x100_0000 % 0x100
  }

  /** Sector 0 of the disk: the first partition's starting sector, and the signature. */
  function DiskByte(v: Volume, i: nat): Byte {
    if 0x1c6 <= i < 0x1ca then Digit(v.lba, i - 0x1c6)
    else if i == 0x1fe then 0x55
    else if i == 0x1ff then 0xaa
    else 0
  }

  /** The first sector of the partition. */
  function BootByte(v: Volume, o: nat): Byte {
    if 11 <= o < 13 then Digit(v.bytesPerSector, o - 11)
    else if o == 13 then Digit(v.sectorsPerCluster, 0)
    else if 14 <= o < 16 then Digit(v.reserved, o - 14)
    else if o == 16 then Digit(v.fatCount, 0)
    else if 17 <= o < 19 then Digit(|v.dir|, o - 17)
    else if 22 <= o < 24 then Digit(v.sectorsPerFat, o - 22)
    else if o == 0x1fe then 0x55
    else if o == 0x1ff then 0xaa
    else 0
  }

  /** Byte r of a copy of the table: two bytes for each entry, low byte first. */
  function FatByte(v: Volume, r: nat): Byte { if r / 2 < |v.fat| then Digit(v.fat[r / 2], r % 2) else 0 }

  /** Byte r of a directory entry. */
  function ItemByte(item: Item, r: nat): Byte
    requires ItemOk(item)
  {
    if r < 8 then item.name[r]
    else if r < 11 then item.ext[r - 8]
    else if r == 11 then item.attributes
    else if 26 <= r < 28 then Digit(item.cluster, r - 26)
    else if 28 <= r < 32 then Digit(item.size, r - 28)
    else 0
  }

  /** Byte p of the data area. */
  ghost function DataByte(v: Volume, p: nat): Byte
    requires Valid(v)
  {
    Positive(v);
    var k := p / ClusterBytes(v);
    if k < |v.clusters| then v.clusters[k][p % ClusterBytes(v)] else 0
  }

  lemma Positive(v: Volume)
    requires FieldsOk(v)
    ensures ClusterBytes(v) > 0
  {
    MultipleBounds(v.sectorsPerCluster, v.bytesPerSector);
  }

  /** Byte o of the partition: boot sector, reserved sectors, copies of the table, root directory, data. */
  ghost function PartitionByte(v: Volume, o: nat): Byte
    requires Valid(v)
  {
    if o < 512 then BootByte(v, o)
    else if o < ReservedBytes(v) then 0
    else if o < DirOffset(v) then if FatBytes(v) == 0 then 0 else FatByte(v, (o - ReservedBytes(v)) % FatBytes(v))
    else if o < DataOffset(v) then ItemByte(v.dir[(o - DirOffset(v)) / 32], (o - DirOffset(v)) % 32)
    else DataByte(v, o - DataOffset(v))
  }

  ghost function LayoutByte(v: Volume, i: nat): Byte
    requires Valid(v)
  {
    if i < 512 then DiskByte(v, i) else if i < Start(v) then 0 else PartitionByte(v, i - Start(v))
  }

  /** The disk image that holds the volume. */
  ghost function LayOut(v: Volume): Image
    requires Valid(v)
  {
    seq<Byte>(IMAGE_SIZE, i requires 0 <= i => LayoutByte(v, i))
  }

  // The accessors of the reader on such an image

  lemma LayoutAt(v: Volume, i: nat)
    requires Valid(v) && i < IMAGE_SIZE
    ensures ByteAt(LayOut(v), i) == LayoutByte(v, i)
  {
    hide LayoutByte, Valid;
  }

  lemma TwoDigits(n: nat)
    requires n < 0x1_0000
    ensures Digit(n, 0) + 0x100 * Digit(n, 1) == n
  {
  }

  lemma FourDigits(n: nat)
    requires n < 0x1_0000_0000
    ensures Digit(n, 0) + 0x100 * Digit(n, 1) + 0x1_0000 * (Digit(n, 2) + 0x100 * Digit(n, 3)) == n
  {
    DivMod(n, 0x100, 0x100);
    DivMod(n, 0x1_0000, 0x100);
  }

  lemma BootSectorInImage(v: Volume)
    requires Valid(v)
    ensures Start(v) + 512 <= IMAGE_SIZE && v.lba < 0x80_0000
  {
  }

  lemma BpbIs(v: Volume)
    requires Valid(v)
    ensures Bpb(LayOut(v)) == Start(v)
  {
    hide LayOut, PartitionByte, Valid, Digit;
    BootSectorInImage(v);
    LayoutAt(v, 0x1c6);
    LayoutAt(v, 0x1c7);
    LayoutAt(v, 0x1c8);
    LayoutAt(v, 0x1c9);
    FourDigits(v.lba);
  }

  lemma BootAt(v: Volume, o: nat)
    requires Valid(v) && o < 512
    ensures ByteAt(LayOut(v), Start(v) + o) == BootByte(v, o)
  {
    hide LayOut, BootByte;
    BootSectorInImage(v);
    LayoutAt(v, Start(v) + o);
  }

  /** The boot sector's fields are those of the volume. */
  lemma GeometryIs(v: Volume)
    requires Valid(v)
    ensures var d := LayOut(v);
            && Bpb(d) == Start(v) && BytesPerSector(d) == v.bytesPerSector
            && SectorsPerCluster(d) == v.sectorsPerCluster
            && ReservedSectors(d) == v.reserved && FatCount(d) == v.fatCount && RootEntryCount(d) == |v.dir|
            && SectorsPerFat(d) == v.sectorsPerFat
  {
    hide LayOut;
    BpbIs(v);
    BootAt(v, 11);
    BootAt(v, 12);
    BootAt(v, 13);
    BootAt(v, 14);
    BootAt(v, 15);
    BootAt(v, 16);
    BootAt(v, 17);
    BootAt(v, 18);
    BootAt(v, 22);
    BootAt(v, 23);
    FieldDigits(v);
  }

  lemma FieldDigits(v: Volume)
    requires Valid(v)
    ensures Digit(v.bytesPerSector, 0) + 0x100 * Digit(v.bytesPerSector, 1) == v.bytesPerSector
    ensures Digit(v.reserved, 0) + 0x100 * Digit(v.reserved, 1) == v.reserved
    ensures Digit(|v.dir|, 0) + 0x100 * Digit(|v.dir|, 1) == |v.dir|
    ensures Digit(v.sectorsPerFat, 0) + 0x100 * Digit(v.sectorsPerFat, 1) == v.sectorsPerFat
    ensures Digit(v.sectorsPerCluster, 0) == v.sectorsPerCluster && Digit(v.fatCount, 0) == v.fatCount
  {
    TwoDigits(v.bytesPerSector);
    TwoDigits(v.reserved);
    TwoDigits(|v.dir|);
    TwoDigits(v.sectorsPerFat);
  }

  lemma TimesCommutes(a: nat, b: nat)
    ensures Times(a, b) == Times(b, a)
  {
  }

  lemma TimesAssociates(a: nat, b: nat, c: nat)
    ensures Times(Times(a, b), c) == Times(a, Times(b, c))
  {
    assert a * b * c == a * (b * c);
  }

  lemma TimesAdds(a: nat, b: nat, c: nat)
    ensures Times(a + b, c) == Times(a, c) + Times(b, c)
  {
  }

  /** Where the table, the directory and the data start, and how large a cluster is. */
  lemma AreasAre(v: Volume)
    requires Valid(v)
    ensures var d := LayOut(v);
            && ClusterSize(d) == ClusterBytes(v) > 0 && FatStart(d) == Start(v) + ReservedBytes(v)
            && DirectoryStart(d) == Start(v) + DirOffset(v) && DataArea(d) == DataOffset(v)
  {
    hide LayOut, Times, Bpb, BytesPerSector, SectorsPerCluster, ReservedSectors, FatCount, RootEntryCount,
         SectorsPerFat,
         Valid;
    GeometryIs(v);
    AreaSums(v);
  }

  lemma AreaSums(v: Volume)
    requires Valid(v)
    ensures ClusterBytes(v) > 0 && Times(v.bytesPerSector, v.sectorsPerCluster) == ClusterBytes(v)
    ensures Times(v.reserved + Times(v.fatCount, v.sectorsPerFat), v.bytesPerSector) == DirOffset(v) < U32_LIMIT
    ensures Times(Times(v.fatCount, v.sectorsPerFat), v.bytesPerSector) == Times(v.fatCount, FatBytes(v))
  {
    Positive(v);
    hide Times;
    TimesCommutes(v.bytesPerSector, v.sectorsPerCluster);
    TimesAssociates(v.fatCount, v.sectorsPerFat, v.bytesPerSector);
    TimesAdds(v.reserved, Times(v.fatCount, v.sectorsPerFat), v.bytesPerSector);
  }

  /** Entry c of the table links to what the volume's table says. */
  lemma FatEntryIs(v: Volume, c: nat)
    requires Valid(v) && c < |v.fat|
    ensures NextCluster(LayOut(v), c) == v.fat[c]
  {
    AreasAre(v);
    FatByteAt(v, 2 * c);
    FatByteAt(v, 2 * c + 1);
    hide LayOut, FatStart, FatByte;
    TwoDigits(v.fat[c]);
    FatBytesOf(v, c);
  }

  lemma FatBytesOf(v: Volume, c: nat)
    requires c < |v.fat|
    ensures FatByte(v, 2 * c) == Digit(v.fat[c], 0) && FatByte(v, 2 * c + 1) == Digit(v.fat[c], 1)
  {
  }

  lemma FatByteAt(v: Volume, r: nat)
    requires Valid(v) && r < 2 * |v.fat|
    ensures ByteAt(LayOut(v), Start(v) + ReservedBytes(v) + r) == FatByte(v, r)
  {
    hide LayOut, FatByte, Times;
    TimesNext(v.fatCount - 1, FatBytes(v));
    DivUnique(r, FatBytes(v), 0, r);
    LayoutAt(v, Start(v) + ReservedBytes(v) + r);
  }

  lemma ItemByteAt(v: Volume, i: nat, r: nat)
    requires Valid(v) && i < |v.dir| && r < 32
    ensures ItemOk(v.dir[i]) && ByteAt(LayOut(v), Start(v) + DirOffset(v) + 32 * i + r) == ItemByte(v.dir[i], r)
  {
    hide LayOut, ItemByte, Times;
    DivUnique(32 * i + r, 32, i, r);
    LayoutAt(v, Start(v) + DirOffset(v) + 32 * i + r);
  }

  /** The directory accessors give the fields of the entry. */
  lemma ItemIs(v: Volume, i: nat)
    requires Valid(v) && i < |v.dir|
    ensures var d, item := LayOut(v), v.dir[i];
            && EntryName(d, i) == item.name && EntryExt(d, i) == item.ext && EntryCluster(d, i) == item.cluster
            && EntrySize(d, i) == item.size && |item.name| == 8
            && (IsLive(d, i) <==> item.name[0] != 0 && item.name[0] != 0xe5 && item.attributes != 0xf)
  {
    AreasAre(v);
    var d, item := LayOut(v), v.dir[i];
    ItemNumbers(v, i);
    ItemNames(v, i);
    hide LayOut, DirectoryStart, Valid;
    ItemByteAt(v, i, 0);
    ItemByteAt(v, i, 11);
  }

  lemma ItemNames(v: Volume, i: nat)
    requires Valid(v) && i < |v.dir|
    ensures EntryName(LayOut(v), i) == v.dir[i].name && EntryExt(LayOut(v), i) == v.dir[i].ext
  {
    hide LayOut, EntryAt, Valid, ByteAt;
    var d, item := LayOut(v), v.dir[i];
    ItemNameByte(v, i, 0);
    forall k | 0 <= k < 8 ensures EntryName(d, i)[k] == item.name[k] {
      ItemNameByte(v, i, k);
    }
    forall k | 0 <= k < 3 ensures EntryExt(d, i)[k] == item.ext[k] {
      ItemNameByte(v, i, 8 + k);
    }
  }

  lemma ItemNameByte(v: Volume, i: nat, k: nat)
    requires Valid(v) && i < |v.dir| && k < 11
    ensures ItemOk(v.dir[i])
    ensures ByteAt(LayOut(v), EntryAt(LayOut(v), i) + k) == if k < 8 then v.dir[i].name[k] else v.dir[i].ext[k - 8]
  {
    AreasAre(v);
    hide LayOut, DirectoryStart, Valid;
    ItemByteAt(v, i, k);
  }

  lemma ItemNumbers(v: Volume, i: nat)
    requires Valid(v) && i < |v.dir|
    ensures EntryCluster(LayOut(v), i) == v.dir[i].cluster && EntrySize(LayOut(v), i) == v.dir[i].size
  {
    AreasAre(v);
    var item := v.dir[i];
    assert ItemOk(item);
    hide LayOut, DirectoryStart, Valid;
    ItemByteAt(v, i, 26);
    ItemByteAt(v, i, 27);
    ItemByteAt(v, i, 28);
    ItemByteAt(v, i, 29);
    ItemByteAt(v, i, 30);
    ItemByteAt(v, i, 31);
    TwoDigits(item.cluster);
    FourDigits(item.size);
    hide Digit;
  }

  /** Byte t of cluster k lies where the reader looks for it, inside the image. */
  lemma ClusterIs(v: Volume, k: nat, t: nat)
    requires Valid(v) && 2 <= k < |v.clusters| + 2 && k < END_OF_CHAIN && t < ClusterBytes(v)
    ensures InData(LayOut(v), k) && |v.clusters[k - 2]| == ClusterBytes(v)
    ensures ByteAt(LayOut(v), ClusterStart(LayOut(v), k) + t) == v.clusters[k - 2][t]
  {
    AreasAre(v);
    GeometryIs(v);
    DataAt(v, k - 2, t);
    hide LayOut, DataArea, ClusterSize, Bpb, Times;
  }

  lemma DataAt(v: Volume, k: nat, t: nat)
    requires Valid(v) && k < |v.clusters| && t < ClusterBytes(v)
    ensures var p := Times(k, ClusterBytes(v));
            && Start(v) + DataOffset(v) + p + ClusterBytes(v) <= IMAGE_SIZE
            && |v.clusters[k]| == ClusterBytes(v)
            && ByteAt(LayOut(v), Start(v) + DataOffset(v) + p + t) == v.clusters[k][t]
  {
    var cs, p := ClusterBytes(v), Times(k, ClusterBytes(v));
    TimesNext(k, cs);
    TimesGrows(k + 1, |v.clusters|, cs);
    DivUnique(p + t, cs, k, t);
    hide LayOut, Times, ItemByte, FatByte;
    LayoutAt(v, Start(v) + DataOffset(v) + p + t);
  }

  // Files

  /** The clusters of a file, in order: each links to the next, and the last to an end mark. */
  ghost predicate IsChain(v: Volume, c: nat, chain: seq<nat>) {
    && chain != [] && chain[0] == c
    && (forall i :: 0 <= i < |chain| ==> 2 <= chain[i] < |v.clusters| + 2 && chain[i] < |v.fat| && chain[i] < 0xfff7)
    && (forall i :: 0 <= i < |chain| - 1 ==> v.fat[chain[i]] == chain[i + 1])
    && v.fat[chain[|chain| - 1]] >= 0xfff7
  }

  /** The data of the clusters, one after the other. */
  ghost function Contents(v: Volume, chain: seq<nat>): seq<Byte>
    requires forall i :: 0 <= i < |chain| ==> 2 <= chain[i] < |v.clusters| + 2
  {
    if chain == [] then [] else v.clusters[chain[0] - 2] + Contents(v, chain[1..])
  }

  lemma {:induction false} ChainIs(v: Volume, c: nat, chain: seq<nat>, i: nat)
    requires Valid(v) && IsChain(v, c, chain) && i < |chain|
    ensures Nth(LayOut(v), c, i) == chain[i]
    ensures i == |chain| - 1 ==> Nth(LayOut(v), c, i + 1) >= END_OF_CHAIN
    decreases i
  {
    hide LayOut, Valid;
    if i > 0 {
      ChainIs(v, c, chain, i - 1);
      FatEntryIs(v, chain[i - 1]);
    }
    FatEntryIs(v, chain[i]);
  }

  lemma {:induction false} ContentsAt(v: Volume, chain: seq<nat>, q: nat, t: nat)
    requires Valid(v) && q < |chain| && t < ClusterBytes(v)
    requires forall i :: 0 <= i < |chain| ==> 2 <= chain[i] < |v.clusters| + 2
    ensures |Contents(v, chain)| == Times(|chain|, ClusterBytes(v))
    ensures Times(q, ClusterBytes(v)) + t < |Contents(v, chain)|
    ensures |v.clusters[chain[q] - 2]| == ClusterBytes(v)
    ensures Contents(v, chain)[Times(q, ClusterBytes(v)) + t] == v.clusters[chain[q] - 2][t]
    decreases |chain|
  {
    var cs := ClusterBytes(v);
    ContentsLength(v, chain);
    TimesGrows(q + 1, |chain|, cs);
    TimesNext(q, cs);
    TimesZero(cs);
    if q > 0 {
      TimesNext(q - 1, cs);
      ContentsAt(v, chain[1..], q - 1, t);
    }
  }

  lemma {:induction false} ContentsLength(v: Volume, chain: seq<nat>)
    requires Valid(v) && forall i :: 0 <= i < |chain| ==> 2 <= chain[i] < |v.clusters| + 2
    ensures |Contents(v, chain)| == Times(|chain|, ClusterBytes(v))
  {
    if chain == [] {
      TimesZero(ClusterBytes(v));
    } else {
      ContentsLength(v, chain[1..]);
      TimesNext(|chain| - 1, ClusterBytes(v));
    }
  }

  /** Reading the chain of a file reads its clusters one after the other. */
  lemma ReadsContents(v: Volume, c: nat, chain: seq<nat>, from: nat, n: nat)
    requires Valid(v) && IsChain(v, c, chain) && from + n <= |Contents(v, chain)|
    ensures ClusterSize(LayOut(v)) > 0 && FileBytes(LayOut(v), c, from, n) == Contents(v, chain)[from..from + n]
  {
    hide LayOut, Valid, ClusterSize, FileByte, Contents, IsChain, Times;
    AreasAre(v);
    ChainRange(v, c, chain);
    var bytes, slice := FileBytes(LayOut(v), c, from, n), Contents(v, chain)[from..from + n];
    forall k | 0 <= k < n ensures bytes[k] == slice[k] {
      ReadsByte(v, c, chain, from + k);
    }
  }

  lemma ReadsByte(v: Volume, c: nat, chain: seq<nat>, p: nat)
    requires Valid(v) && IsChain(v, c, chain) && p < |Contents(v, chain)|
    ensures ClusterSize(LayOut(v)) > 0 && FileByte(LayOut(v), c, p) == Contents(v, chain)[p]
  {
    hide LayOut, Valid, ClusterSize, ClusterBytes, Contents, Times, FileByte, IsChain;
    AreasAre(v);
    ChainRange(v, c, chain);
    ContentsLength(v, chain);
    var cs := ClusterBytes(v);
    Split(p, cs);
    if p / cs >= |chain| {
      TimesGrows(|chain|, p / cs, cs);
    }
    ReadsAt(v, c, chain, p / cs, p % cs);
  }

  lemma ChainRange(v: Volume, c: nat, chain: seq<nat>)
    requires IsChain(v, c, chain)
    ensures forall i :: 0 <= i < |chain| ==> 2 <= chain[i] < |v.clusters| + 2 && chain[i] < END_OF_CHAIN
  {
  }

  /** Byte t of the q-th cluster of the chain. */
  lemma ReadsAt(v: Volume, c: nat, chain: seq<nat>, q: nat, t: nat)
    requires Valid(v) && IsChain(v, c, chain) && q < |chain| && t < ClusterBytes(v)
    ensures ClusterSize(LayOut(v)) > 0 && Times(q, ClusterBytes(v)) + t < |Contents(v, chain)|
    ensures FileByte(LayOut(v), c, Times(q, ClusterBytes(v)) + t) == Contents(v, chain)[Times(q, ClusterBytes(v)) + t]
  {
    hide LayOut, Valid, ClusterSize, ClusterBytes, Contents, Times, FileByte, IsChain, ClusterStart;
    AreasAre(v);
    ChainRange(v, c, chain);
    ContentsAt(v, chain, q, t);
    ChainIs(v, c, chain, q);
    ClusterIs(v, chain[q], t);
    ByteInCluster(LayOut(v), c, q, t);
  }

  /** Such a chain ends, and its clusters hold data. */
  lemma ChainReadable(v: Volume, c: nat, chain: seq<nat>)
    requires Valid(v) && IsChain(v, c, chain)
    ensures ChainOf(LayOut(v), c, |chain|)
    ensures forall i :: 0 <= i < |chain| ==> InData(LayOut(v), Nth(LayOut(v), c, i))
  {
    hide LayOut, Valid, InData;
    ChainIs(v, c, chain, |chain| - 1);
    Positive2(v);
    forall i | 0 <= i < |chain|
      ensures Nth(LayOut(v), c, i) < END_OF_CHAIN && InData(LayOut(v), Nth(LayOut(v), c, i))
    {
      ChainIs(v, c, chain, i);
      ClusterIs(v, chain[i], 0);
    }
  }

  lemma Positive2(v: Volume)
    requires Valid(v)
    ensures ClusterBytes(v) > 0
  {
    Positive(v);
  }

  /** Entry i of the directory is a file: empty, or with a chain that covers its size. */
  ghost predicate IsFile(v: Volume, i: nat, chain: seq<nat>) {
    && i < |v.dir|
    && if v.dir[i].size == 0 then chain == []
       else IsChain(v, v.dir[i].cluster, chain) && v.dir[i].size <= |Contents(v, chain)|
  }

  /** The bytes of the file. */
  ghost function FileData(v: Volume, i: nat, chain: seq<nat>): seq<Byte>
    requires IsFile(v, i, chain)
  {
    Contents(v, chain)[..v.dir[i].size]
  }

  /** A file of the volume can be loaded, and its bytes on the image are its data. */
  lemma FileOnImage(v: Volume, i: nat, chain: seq<nat>, room: nat)
    requires Valid(v) && IsFile(v, i, chain) && v.dir[i].size <= room
    ensures Loadable(LayOut(v), i, room)
    ensures FileBytes(LayOut(v), EntryCluster(LayOut(v), i), 0, EntrySize(LayOut(v), i)) == FileData(v, i, chain)
  {
    ItemIs(v, i);
    AreasAre(v);
    var d, c, size := LayOut(v), v.dir[i].cluster, v.dir[i].size;
    if size == 0 {
      NothingToLoad(d, i, room);
    } else {
      ReadsContents(v, c, chain, 0, size);
      ChainReadable(v, c, chain);
      ContentsLength(v, chain);
      hide LayOut, Valid, IsChain, Contents;
      ChainLoads(d, i, |chain|, room);
    }
  }

  lemma NothingToLoad(d: Image, i: nat, room: nat)
    requires ClusterSize(d) > 0 && EntrySize(d, i) == 0
    ensures Loadable(d, i, room)
  {
    hide ClusterSize, Times;
    var cs := ClusterSize(d);
    DivUnique(cs - 1, cs, 0, cs - 1);
    assert ClustersFor(d, 0) == 0;
    TimesZero(cs);
  }

  lemma ChainLoads(d: Image, i: nat, n: nat, room: nat)
    requires ClusterSize(d) > 0 && ChainOf(d, EntryCluster(d, i), n) && EntrySize(d, i) <= room
    requires EntrySize(d, i) <= Times(n, ClusterSize(d))
    requires forall k :: 0 <= k < n ==> InData(d, Nth(d, EntryCluster(d, i), k))
    ensures Loadable(d, i, room)
  {
    hide ClusterSize, Times, InData, ClustersFor, EntrySize, EntryCluster;
    var c, size := EntryCluster(d, i), EntrySize(d, i);
    var bound := ClustersFor(d, size);
    EndingChainFits(d, c, n);
    Needed(d, n, size);
    LengthIs(d, c, bound);
    LengthAtLeast(d, c, bound, bound);
    TimesGrows(bound, n, ClusterSize(d));
  }

  // Names

  /** The text names entry i: the first that is in use, no part of a long name, and has the padded name. */
  ghost predicate NamesItem(v: Volume, t: seq<Byte>, i: nat) {
    IsName(t) && i < |v.dir| && MatchesItem(v.dir[i], t) && forall j :: 0 <= j < i ==> !MatchesItem(v.dir[j], t)
  }

  predicate MatchesItem(item: Item, t: seq<Byte>) {
    && |item.name| == 8 && item.name[0] != 0 && item.name[0] != 0xe5 && item.attributes != 0xf
    && item.name == Pad(Base(t), 8) && item.ext == Pad(Extension(t), 3)
  }

  lemma NamesAre(v: Volume, t: seq<Byte>, i: nat)
    requires Valid(v)
    ensures Names.Names(LayOut(v), t, i) <==> NamesItem(v, t, i)
  {
    GeometryIs(v);
    hide LayOut, Valid, RootEntryCount, Pad, IsName, IsLive, EntryName, EntryExt;
    forall j | 0 <= j < |v.dir| ensures Matches(LayOut(v), j, t) <==> MatchesItem(v.dir[j], t) {
      ItemIs(v, j);
    }
  }

  predicate LacksByte(t: seq<Byte>, b: Byte) { forall k :: 0 <= k < |t| ==> t[k] != b }

  /** A part of a name, filled up with spaces. */
  function Filled(t: seq<Byte>, n: nat): seq<Byte> { if |t| >= n then t else t + seq<Byte>(n - |t|, _ => 0x20) }

  /**
   A text "base.ext" is a name unless it is too long or has a slash, and matches the entries in use that
   hold its two parts filled up with spaces. Without its dot the extension is empty.
   */
  lemma NameIs(item: Item, base: seq<Byte>, ext: seq<Byte>)
    requires LacksByte(base, 0x2e)
    ensures IsName(base + [0x2e] + ext) <==> |base| <= 8 && |ext| <= 3 && LacksByte(base + ext, 0x2f)
    ensures IsName(base) <==> |base| <= 8 && LacksByte(base, 0x2f)
    ensures |base| <= 8 && |ext| <= 3 && ItemOk(item) ==>
      (MatchesItem(item, base + [0x2e] + ext) <==>
        item.name[0] != 0 && item.name[0] != 0xe5 && item.attributes != 0xf
        && item.name == Filled(base, 8) && item.ext == Filled(ext, 3))
    ensures |base| <= 8 && ItemOk(item) ==> (MatchesItem(item, base) <==> MatchesItem(item, base + [0x2e]))
  {
    hide Pad;
    DottedParts(base, ext);
    DottedParts(base, []);
    DotIs(base, |base|);
    assert Base(base) == base && Extension(base) == [];
    assert base + [0x2e] == base + [0x2e] + [];
    DottedIsName(base, ext);
    if |base| <= 8 {
      PadIs(base, 8);
    }
    if |ext| <= 3 {
      PadIs(ext, 3);
    }
  }

  lemma DottedParts(base: seq<Byte>, ext: seq<Byte>)
    requires LacksByte(base, 0x2e)
    ensures var t := base + [0x2e] + ext; Dot(t) == |base| && Base(t) == base && Extension(t) == ext
  {
    DotIs(base + [0x2e] + ext, |base|);
  }

  lemma DottedIsName(base: seq<Byte>, ext: seq<Byte>)
    requires LacksByte(base, 0x2e)
    ensures IsName(base + [0x2e] + ext) <==> |base| <= 8 && |ext| <= 3 && LacksByte(base + ext, 0x2f)
  {
    DottedParts(base, ext);
    var t := base + [0x2e] + ext;
    forall k | 0 <= k < |base + ext| ensures (base + ext)[k] == t[if k < |base| then k else k + 1] {
    }
    forall k | 0 <= k < |t| && k != |base| ensures t[k] == (base + ext)[if k < |base| then k else k - 1] {
    }
  }

  lemma PadIs(t: seq<Byte>, n: nat)
    requires |t| <= n
    ensures Pad(t, n) == Filled(t, n)
  {
  }

  /**
   Loading a path from the image of a volume, as exec and setup_uvm do: if it succeeds, the buffer starts
   with the data of the file that the path names, cluster by cluster as the table links them.
   */
  lemma LoadedFromVolume(v: Volume, path: seq<Byte>, entry: nat, chain: seq<nat>, result: int, before: seq<Byte>,
      after: seq<Byte>, s: Tables, s': Tables)
    requires Valid(v) && Loaded(LayOut(v), path, entry, result, before, after, s, s') && IsFile(v, entry, chain)
    ensures NamesItem(v, Text(path), entry)
    ensures result == v.dir[entry].size <= |before| && after == FileData(v, entry, chain) + before[result..]
  {
    hide LayOut, Valid, Names.Names, NamesItem, FileBytes, FileData;
    NamesAre(v, Text(path), entry);
    ItemIs(v, entry);
    FileOnImage(v, entry, chain, |before|);
  }

  /** All that can be asked of the image for loading a path, in terms of the volume. */
  lemma VolumeLoadable(v: Volume, path: seq<Byte>, room: nat)
    requires Valid(v)
    requires forall i :: 0 <= i < |v.dir| && NamesItem(v, Text(path), i) ==>
      v.dir[i].size <= room && exists chain :: IsFile(v, i, chain)
    ensures PathLoadable(LayOut(v), path, room)
  {
    hide LayOut, Valid, Names.Names, NamesItem, Loadable, IsFile;
    GeometryIs(v);
    forall i | 0 <= i < RootEntryCount(LayOut(v)) && Names.Names(LayOut(v), Text(path), i)
      ensures Loadable(LayOut(v), i, room)
    {
      NamesAre(v, Text(path), i);
      var chain :| IsFile(v, i, chain);
      FileOnImage(v, i, chain, room);
    }
  }
}
