/**
 Open files as a transition system: the FCB table, the descriptor table, and the handles of every
 process, under open, close, fork, reaping and read. Reaping zeroes the handles of a process without
 telling the tables; the handles lost that way are counted on the side.
 */
module FileTables {
  import opened Words
  import opened Fat
  import opened Names

  const PROCS: nat := 10
  const FDS: nat := 100
  const NULL: int := -1

  datatype Fcb = Fcb(cluster: nat, dirIndex: nat, size: U32, count: int)

  datatype FileDesc = FileDesc(fcb: int, position: U32, count: int)

  datatype Tables = Tables(fcbs: seq<Fcb>, descs: seq<FileDesc>, files: seq<seq<int>>)

  function EmptyRow(): seq<int> { seq(FDS, _ => NULL) }

  ghost predicate Shape(d: Image, s: Tables) {
    && |s.fcbs| >= RootEntryCount(d) && |s.files| == PROCS && forall p :: 0 <= p < PROCS ==> |s.files[p]| == FDS
  }

  // The operations

  /** Index of the first NULL handle, or the length. */
  function FreeFd(row: seq<int>): (k: nat)
    ensures k <= |row| && (k < |row| ==> row[k] == NULL) && forall j :: 0 <= j < k ==> row[j] != NULL
  {
    if row == [] || row[0] == NULL then 0 else 1 + FreeFd(row[1..])
  }

  /** Index of the first descriptor without an FCB, or the length. */
  function FreeDesc(descs: seq<FileDesc>): (k: nat)
    ensures k <= |descs| && (k < |descs| ==> descs[k].fcb == NULL) && forall j :: 0 <= j < k ==> descs[j].fcb != NULL
  {
    if descs == [] || descs[0].fcb == NULL then 0 else 1 + FreeDesc(descs[1..])
  }

  /** get_fcb: the first open of a file fills its FCB from the directory. */
  function GetFcb(d: Image, fcbs: seq<Fcb>, i: nat): seq<Fcb>
    requires i < |fcbs|
  {
    var f := if fcbs[i].count == 0 then Fcb(EntryCluster(d, i), i, EntrySize(d, i), 0) else fcbs[i];
    fcbs[i := f.(count := f.count + 1)]
  }

  /** open_file, given what search_file found. */
  function Open(d: Image, s: Tables, p: nat, found: U32): (int, Tables)
    requires p < |s.files| && (found != NOT_FOUND ==> found < |s.fcbs|)
  {
    var fd, k := FreeFd(s.files[p]), FreeDesc(s.descs);
    if fd == |s.files[p]| || k == |s.descs| || found == NOT_FOUND then (NULL, s)
    else (fd, Tables(GetFcb(d, s.fcbs, found), s.descs[k := FileDesc(found, 0, 1)], s.files[p := s.files[p][fd := k]]))
  }

  /** A handle that close_file, read_file or get_file_size may be given. */
  predicate IsOpen(s: Tables, p: nat, fd: nat) {
    && p < |s.files| && fd < |s.files[p]| && 0 <= s.files[p][fd] < |s.descs|
    && 0 <= s.descs[s.files[p][fd]].fcb < |s.fcbs|
  }

  function FcbOf(s: Tables, p: nat, fd: nat): nat
    requires IsOpen(s, p, fd)
  {
    s.descs[s.files[p][fd]].fcb
  }

  function Close(s: Tables, p: nat, fd: nat): Tables
    requires IsOpen(s, p, fd)
  {
    var k, i := s.files[p][fd], FcbOf(s, p, fd);
    Tables(s.fcbs[i := s.fcbs[i].(count := s.fcbs[i].count - 1)],
           if s.descs[k].count == 0 then s.descs[k := s.descs[k].(fcb := NULL)] else s.descs,
           s.files[p := s.files[p][fd := NULL]])
  }

  /** How often descriptor k occurs among the handles. */
  function Uses(row: seq<int>, k: int): nat {
    if row == [] then 0 else (if row[0] == k then 1 else 0) + Uses(row[1..], k)
  }

  /** How many of the handles refer to FCB i. */
  function Refers(row: seq<int>, descs: seq<FileDesc>, i: int): nat {
    if row == [] then 0
    else (if 0 <= row[0] < |descs| && descs[row[0]].fcb == i then 1 else 0) + Refers(row[1..], descs, i)
  }

  /** The part of fork that copies the handles. */
  function ForkFiles(s: Tables, parent: nat, child: nat): Tables
    requires parent < |s.files| && child < |s.files|
  {
    Tables(ShareFcbs(s.fcbs, s.descs, s.files[parent]), ShareDescs(s.descs, s.files[parent]),
        s.files[child := s.files[parent]])
  }

  function AddUses(f: Fcb, n: nat): Fcb { Fcb(f.cluster, f.dirIndex, f.size, f.count + n) }

  function AddHolders(f: FileDesc, n: nat): FileDesc { FileDesc(f.fcb, f.position, f.count + n) }

  function ShareFcbs(fcbs: seq<Fcb>, descs: seq<FileDesc>, row: seq<int>): seq<Fcb> {
    seq(|fcbs|, i requires 0 <= i < |fcbs| => AddUses(fcbs[i], Refers(row, descs, i)))
  }

  function ShareDescs(descs: seq<FileDesc>, row: seq<int>): seq<FileDesc> {
    seq(|descs|, k requires 0 <= k < |descs| => AddHolders(descs[k], Uses(row, k)))
  }

  /** Reaping: memset of the process structure. */
  function Discard(s: Tables, p: nat): Tables
    requires p < |s.files|
  {
    s.(files := s.files[p := EmptyRow()])
  }

  /** read_file refuses a read that its 32-bit sum places past the end of the file. */
  predicate Refused(s: Tables, p: nat, fd: nat, size: U32)
    requires IsOpen(s, p, fd)
  {
    (s.descs[s.files[p][fd]].position + size) % U32_LIMIT > s.fcbs[FcbOf(s, p, fd)].size
  }

  function PositionOf(s: Tables, p: nat, fd: nat): U32
    requires IsOpen(s, p, fd)
  {
    s.descs[s.files[p][fd]].position
  }

  function SizeOf(s: Tables, p: nat, fd: nat): U32
    requires IsOpen(s, p, fd)
  {
    s.fcbs[FcbOf(s, p, fd)].size
  }

  function ClusterOf(s: Tables, p: nat, fd: nat): nat
    requires IsOpen(s, p, fd)
  {
    s.fcbs[FcbOf(s, p, fd)].cluster
  }

  /**
   How many bytes read_file counts as read when it does not refuse: none if the kernel halts, all of
   them if the first copy wraps, and otherwise what the chain gives.
   */
  ghost function Delivered(d: Image, s: Tables, p: nat, fd: nat, size: U32): int
    requires IsOpen(s, p, fd) && ClusterSize(d) > 0
  {
    var position, c := PositionOf(s, p, fd), ClusterOf(s, p, fd);
    if Refused(s, p, fd, size) || !Reaches(d, c, position) then 0
    else if CopyWraps(d, position, size) then size
    else ReadLength(d, c, position, size)
  }

  /** How read_file ends; -1 is its refusal. */
  ghost function ReadOutcome(d: Image, s: Tables, p: nat, fd: nat, size: U32): Outcome
    requires IsOpen(s, p, fd) && ClusterSize(d) > 0
  {
    var position, c := PositionOf(s, p, fd), ClusterOf(s, p, fd);
    if Refused(s, p, fd, size) then Done(-1)
    else if !Reaches(d, c, position) then Halted
    else if CopyWraps(d, position, size) then Overrun
    else if LoopWraps(d, c, position, size) then Lost
    else Done(ReadLength(d, c, position, size))
  }

  ghost function Read(d: Image, s: Tables, p: nat, fd: nat, size: U32): Tables
    requires IsOpen(s, p, fd) && ClusterSize(d) > 0
  {
    var k := s.files[p][fd];
    var n := Delivered(d, s, p, fd, size);
    if n <= 0 then s else s.(descs := s.descs[k := s.descs[k].(position := (s.descs[k].position + n) % U32_LIMIT)])
  }
}
