/** The open-file calls of fs.c, and fork's copy of the handles, updating the tables in place. */
module Files {
  import opened Words
  import opened Fat
  import opened Names
  import opened FileTables
  import L = FileLaws

  /** What read_raw_data asks of its caller: clusters that hold data, and room for the bytes delivered. */
  ghost predicate CanRead(d: Image, s: Tables, p: nat, fd: nat, size: U32, room: nat)
    requires IsOpen(s, p, fd)
  {
    var position, c := PositionOf(s, p, fd), ClusterOf(s, p, fd);
    && ClusterSize(d) > 0
    && (Refused(s, p, fd, size) ||
        (Fits(d, c, position, size, room) && Readable(d, c, position + size) && (position > 0 ==> c < END_OF_CHAIN)))
  }

  /** The chain of the entry covers its size with clusters of data, and there is room for it. */
  ghost predicate Loadable(d: Image, i: nat, room: nat) {
    var c, size := EntryCluster(d, i), EntrySize(d, i);
    && ClusterSize(d) > 0 && size <= room && Readable(d, c, size)
    && Length(d, c, ClustersFor(d, size)) == ClustersFor(d, size)
    && Times(ClustersFor(d, size), ClusterSize(d)) < U32_LIMIT
  }

  /** Every entry the path names can be loaded. */
  ghost predicate PathLoadable(d: Image, path: seq<Byte>, room: nat) {
    forall i :: 0 <= i < RootEntryCount(d) && Names.Names(d, Text(path), i) ==> Loadable(d, i, room)
  }

  /**
   A load that succeeded: the buffer starts with the first EntrySize bytes of the cluster chain of an
   entry the path names, the rest of it is as before, and so are handles and reference counts.
   */
  ghost predicate Loaded(d: Image, path: seq<Byte>, entry: nat, result: int, before: seq<Byte>, after: seq<Byte>,
      s: Tables, s': Tables) {
    && ClusterSize(d) > 0 && Names.Names(d, Text(path), entry) && result == EntrySize(d, entry) <= |after| == |before|
    && after == FileBytes(d, EntryCluster(d, entry), 0, result) + before[result..]
    && s'.files == s.files && L.SameCounts(s.fcbs, s'.fcbs)
  }

  /** open_file gives no handle: the path names no entry, or all handles of p or all descriptors are taken. */
  ghost predicate CannotOpen(d: Image, s: Tables, p: nat, path: seq<Byte>) {
    || !IsName(Text(path)) || (forall i :: 0 <= i < RootEntryCount(d) ==> !Matches(d, i, Text(path)))
    || (p < |s.files| && forall fd :: 0 <= fd < |s.files[p]| ==> s.files[p][fd] != NULL)
    || (forall k :: 0 <= k < |s.descs| ==> s.descs[k].fcb != NULL)
  }

  /** The tables s1 after a successful open of entry i: it can be read whole and closed. */
  ghost predicate Opened(d: Image, s: Tables, gone: seq<nat>, p: nat, fd: int, s1: Tables, i: nat, room: nat) {
    && fd >= 0 && IsOpen(s1, p, fd) && ClusterSize(d) > 0
    && var size := EntrySize(d, i);
       && CanRead(d, s1, p, fd, size, room) && SizeOf(s1, p, fd) == size && !Refused(s1, p, fd, size)
       && ReadOutcome(d, s1, p, fd, size) == Done(size) && Delivered(d, s1, p, fd, size) == size
       && ClusterOf(s1, p, fd) == EntryCluster(d, i) && PositionOf(s1, p, fd) == 0
       && L.LoadsEntry(d, s, gone, p, fd, s1, i)
  }

  lemma OpenedReady(d: Image, s: Tables, gone: seq<nat>, p: nat, i: U32, room: nat)
    requires L.Inv(d, L.World(s, gone)) && p < |s.files| && i < RootEntryCount(d) && Loadable(d, i, room)
    requires i != NOT_FOUND && i < |s.fcbs| && Open(d, s, p, i).0 != NULL
    ensures Opened(d, s, gone, p, Open(d, s, p, i).0, Open(d, s, p, i).1, i, room)
  {
    hide L.Inv, Open, EntrySize, EntryCluster, Length, ClustersFor, ClusterSize, Times, LoopWraps, CopyWraps,
         ReadLength, Reaches, Readable,
         L.LoadsEntry;
    L.OpenReadClose(d, L.World(s, gone), p, i);
    LoadsDelivers(d, s, gone, p, Open(d, s, p, i).0, Open(d, s, p, i).1, i);
  }

  lemma LoadsDelivers(d: Image, s: Tables, gone: seq<nat>, p: nat, fd: int, s1: Tables, i: nat)
    requires L.LoadsEntry(d, s, gone, p, fd, s1, i)
    ensures L.DeliversEntry(d, s1, p, fd, i)
  {
  }

  class FileSystem {
    const image: Image
    const fcbTable: array<Fcb>
    const fileDescTable: array<FileDesc>
    const files: seq<array<int>>

    ghost predicate Valid()
    {
      && |files| == PROCS && (forall p :: 0 <= p < PROCS ==> files[p].Length == FDS)
      && (forall p, q :: 0 <= p < q < PROCS ==> files[p] != files[q])
      && fcbTable.Length >= RootEntryCount(image)
    }

    ghost function Rows(): seq<seq<int>>
      reads files
    {
      seq(|files|, p requires 0 <= p < |files| reads files => files[p][..])
    }

    ghost function State(): Tables
      reads fcbTable, fileDescTable, files
    {
      Tables(fcbTable[..], fileDescTable[..], Rows())
    }

    /** The tables init_fs clears, with the handle arrays of the process table. */
    constructor (image: Image, descs: nat, files: seq<array<int>>)
      requires |files| == PROCS && (forall p :: 0 <= p < PROCS ==> files[p].Length == FDS && files[p][..] == EmptyRow())
      requires forall p, q :: 0 <= p < q < PROCS ==> files[p] != files[q]
      ensures Valid() && this.image == image && this.files == files && fresh(fcbTable) && fresh(fileDescTable)
      ensures State() == Tables(seq(RootEntryCount(image), _ => Fcb(0, 0, 0, 0)), seq(descs, _ => FileDesc(NULL, 0, 0)),
          seq(PROCS, _ => EmptyRow()))
    {
      this.image := image;
      this.files := files;
      fcbTable := new Fcb[RootEntryCount(image)](_ => Fcb(0, 0, 0, 0));
      fileDescTable := new FileDesc[descs](_ => FileDesc(NULL, 0, 0));
    }

    lemma RowSet(before: seq<seq<int>>, p: nat)
      requires |files| == |before| == PROCS && p < PROCS && forall q :: 0 <= q < PROCS && q != p ==>
          files[q][..] == before[q]
      ensures Rows() == before[p := files[p][..]]
    {
    }

    method FindFd(p: nat) returns (fd: nat)
      requires Valid() && p < PROCS
      ensures fd == FreeFd(files[p][..])
    {
      fd := 0;
      while fd < FDS && files[p][fd] != NULL
        invariant 0 <= fd <= FDS && forall j :: 0 <= j < fd ==> files[p][j] != NULL
      {
        fd := fd + 1;
      }
      FirstNull(files[p][..], fd);
    }

    method FindDesc() returns (k: nat)
      ensures k == FreeDesc(fileDescTable[..])
    {
      k := 0;
      while k < fileDescTable.Length && fileDescTable[k].fcb != NULL
        invariant 0 <= k <= fileDescTable.Length && forall j :: 0 <= j < k ==> fileDescTable[j].fcb != NULL
      {
        k := k + 1;
      }
      FirstUnused(fileDescTable[..], k);
    }

    lemma FirstNull(row: seq<int>, k: nat)
      requires k <= |row| && (k < |row| ==> row[k] == NULL) && forall j :: 0 <= j < k ==> row[j] != NULL
      ensures FreeFd(row) == k
    {
    }

    lemma FirstUnused(descs: seq<FileDesc>, k: nat)
      requires k <= |descs| && (k < |descs| ==> descs[k].fcb == NULL) && forall j :: 0 <= j < k ==> descs[j].fcb != NULL
      ensures FreeDesc(descs) == k
    {
    }

    method OpenFcb(i: nat)
      requires i < fcbTable.Length
      modifies fcbTable
      ensures fcbTable[..] == GetFcb(image, old(fcbTable[..]), i)
    {
      if fcbTable[i].count == 0 {
        fcbTable[i] := Fcb(EntryCluster(image, i), i, EntrySize(image, i), 0);
      }
      fcbTable[i] := fcbTable[i].(count := fcbTable[i].count + 1);
    }

    /** open_file: a free handle, a free descriptor and a directory entry are all needed. */
    method OpenFile(p: nat, path: seq<Byte>) returns (fd: int, ghost found: U32)
      requires Valid() && p < PROCS && Terminated(path)
      modifies fcbTable, fileDescTable, files[p]
      ensures Found(path, found) && (fd, State()) == Open(image, old(State()), p, found)
    {
      hide GetFcb, FreeFd, FreeDesc;
      ghost var s := State();
      var free := FindFd(p);
      var k := FindDesc();
      var entry := SearchFile(image, path);
      found := entry;
      if free == FDS || k == fileDescTable.Length || entry == NOT_FOUND {
        fd := NULL;
        return;
      }
      OpenFcb(entry);
      fileDescTable[k] := FileDesc(entry, 0, 1);
      files[p][free] := k;
      RowSet(s.files, p);
      fd := free;
    }

    /** What search_file returns for the path. */
    ghost predicate Found(path: seq<Byte>, found: U32) {
      && (found != NOT_FOUND ==> Names.Names(image, Text(path), found))
      && (found == NOT_FOUND <==> !IsName(Text(path)) || forall i :: 0 <= i < RootEntryCount(image) ==>
          !Matches(image, i, Text(path)))
    }

    /** close_file; put_fcb's assertion is a precondition here, and holds for live handles. */
    method CloseFile(p: nat, fd: nat)
      requires Valid() && p < PROCS && IsOpen(State(), p, fd) && State().fcbs[FcbOf(State(), p, fd)].count > 0
      modifies fcbTable, fileDescTable, files[p]
      ensures State() == Close(old(State()), p, fd)
    {
      ghost var s := State();
      var k := files[p][fd];
      var i := fileDescTable[k].fcb;
      fcbTable[i] := fcbTable[i].(count := fcbTable[i].count - 1);
      if fileDescTable[k].count == 0 {
        fileDescTable[k] := fileDescTable[k].(fcb := NULL);
      }
      files[p][fd] := NULL;
      RowSet(s.files, p);
    }

    /** One handle of fork's loop: the descriptor and its FCB gain a user. */
    method Share(k: nat)
      requires k < fileDescTable.Length && 0 <= fileDescTable[k].fcb < fcbTable.Length
      modifies fcbTable, fileDescTable
      ensures fileDescTable[..] == old(fileDescTable[..])[k := AddHolders(old(fileDescTable[k]), 1)]
      ensures var i := old(fileDescTable[k].fcb); fcbTable[..] == old(fcbTable[..])[i := AddUses(old(fcbTable[i]), 1)]
    {
      fileDescTable[k] := fileDescTable[k].(count := fileDescTable[k].count + 1);
      var i := fileDescTable[k].fcb;
      fcbTable[i] := fcbTable[i].(count := fcbTable[i].count + 1);
    }

    /** fork's copy of the handles to a child that has none. */
    method ForkFiles(parent: nat, child: nat)
      requires Valid() && parent < PROCS && child < PROCS && parent != child
      requires forall fd :: 0 <= fd < FDS && files[parent][fd] != NULL ==> IsOpen(State(), parent, fd)
      modifies fcbTable, fileDescTable, files[child]
      ensures State() == FileTables.ForkFiles(old(State()), parent, child)
    {
      ghost var s := State();
      ghost var row := s.files[parent];
      forall fd | 0 <= fd < FDS {
        files[child][fd] := files[parent][fd];
      }
      RowSet(s.files, child);
      assert files[child][..] == row;
      ShareNone(s.fcbs, s.descs);
      for i := 0 to FDS
        invariant files[child][..] == row
        invariant fcbTable[..] == ShareFcbs(s.fcbs, s.descs, row[..i])
            && fileDescTable[..] == ShareDescs(s.descs, row[..i])
      {
        ShareMore(s.fcbs, s.descs, row, i);
        if files[child][i] != NULL {
          assert IsOpen(s, parent, i);
          Share(files[child][i]);
        }
      }
      assert row[..FDS] == row;
      RowSet(s.files, child);
    }

    lemma ShareNone(fcbs: seq<Fcb>, descs: seq<FileDesc>)
      ensures ShareFcbs(fcbs, descs, []) == fcbs && ShareDescs(descs, []) == descs
    {
    }

    /** One more handle: one more use of its FCB and of its descriptor, or no change for NULL. */
    lemma ShareMore(fcbs: seq<Fcb>, descs: seq<FileDesc>, row: seq<int>, i: nat)
      requires i < |row| && (row[i] != NULL ==> 0 <= row[i] < |descs| && 0 <= descs[row[i]].fcb < |fcbs|)
      ensures var more, less := ShareFcbs(fcbs, descs, row[..i + 1]), ShareFcbs(fcbs, descs, row[..i]);
              more == if row[i] == NULL then less else less[descs[row[i]].fcb := AddUses(less[descs[row[i]].fcb], 1)]
      ensures var more, less := ShareDescs(descs, row[..i + 1]), ShareDescs(descs, row[..i]);
              more == if row[i] == NULL then less else less[row[i] := AddHolders(less[row[i]], 1)]
    {
      var h := row[i];
      assert row[..i + 1] == row[..i] + [h] && [h][1..] == [];
      forall j | 0 <= j < |fcbs|
        ensures Refers(row[..i + 1], descs, j) == Refers(row[..i], descs, j) + if h != NULL && descs[h].fcb == j then 1
            else 0
      {
        RefersConcat(row[..i], [h], descs, j);
        assert Refers([h][1..], descs, j) == 0;
      }
      forall k | 0 <= k < |descs| ensures Uses(row[..i + 1], k) == Uses(row[..i], k) + if h == k then 1 else 0 {
        UsesConcat(row[..i], [h], k);
        assert Uses([h][1..], k) == 0;
      }
      assert row[i] == NULL ==> ShareFcbs(fcbs, descs, row[..i + 1]) == ShareFcbs(fcbs, descs, row[..i]);
      assert row[i] == NULL ==> ShareDescs(descs, row[..i + 1]) == ShareDescs(descs, row[..i]);
    }

    lemma {:induction false} RefersConcat(a: seq<int>, b: seq<int>, descs: seq<FileDesc>, i: int)
      ensures Refers(a + b, descs, i) == Refers(a, descs, i) + Refers(b, descs, i)
    {
      if a == [] {
        assert a + b == b;
      } else {
        RefersConcat(a[1..], b, descs, i);
        assert (a + b)[1..] == a[1..] + b;
      }
    }

    lemma {:induction false} UsesConcat(a: seq<int>, b: seq<int>, k: int)
      ensures Uses(a + b, k) == Uses(a, k) + Uses(b, k)
    {
      if a == [] {
        assert a + b == b;
      } else {
        UsesConcat(a[1..], b, k);
        assert (a + b)[1..] == a[1..] + b;
      }
    }

    /** Reaping's memset of the handles. */
    method Discard(p: nat)
      requires Valid() && p < PROCS
      modifies files[p]
      ensures State() == FileTables.Discard(old(State()), p)
    {
      ghost var s := State();
      forall fd | 0 <= fd < FDS {
        files[p][fd] := NULL;
      }
      assert files[p][..] == EmptyRow();
      RowSet(s.files, p);
    }

    /** read_file: refused, or the next bytes of the file, with the shared position moved past them. */
    method ReadFile(p: nat, fd: nat, buffer: array<Byte>, size: U32) returns (result: int, how: Outcome)
      requires Valid() && p < PROCS && IsOpen(State(), p, fd) && CanRead(image, State(), p, fd, size, buffer.Length)
      modifies buffer, fileDescTable
      ensures how == ReadOutcome(image, old(State()), p, fd, size)
      ensures old(Refused(State(), p, fd, size)) ==>
          result == -1 && State() == old(State()) && buffer[..] == old(buffer[..])
      ensures how.Halted? || how.Lost? ==> State() == old(State())
      ensures how.Halted? ==> buffer[..] == old(buffer[..])
      ensures !old(Refused(State(), p, fd, size)) && (how.Done? || how.Overrun?) ==>
        result == Delivered(image, old(State()), p, fd, size) && State() == Read(image, old(State()), p, fd, size)
      ensures !old(Refused(State(), p, fd, size)) && how.Done? ==>
        && 0 <= result <= size && result <= buffer.Length && buffer[result..] == old(buffer[result..])
        && buffer[..result] == FileBytes(image, old(ClusterOf(State(), p, fd)), old(PositionOf(State(), p, fd)), result)
    {
      hide Readable, Reaches, ReadLength, FileByte, ClusterSize, CopyWraps, LoopWraps, Fits;
      var k := files[p][fd];
      var i := fileDescTable[k].fcb;
      var position := fileDescTable[k].position;
      if (position + size) % U32_LIMIT > fcbTable[i].size {
        return -1, Done(-1);
      }
      how := ReadRawData(image, fcbTable[i].cluster, buffer, position, size);
      result := match how case Done(n) => n case _ => size;
      if how.Done? || how.Overrun? {
        fileDescTable[k] := fileDescTable[k].(position := (position + result) % U32_LIMIT);
      }
    }

    /** get_file_size. */
    method GetFileSize(p: nat, fd: nat) returns (size: U32)
      requires Valid() && p < PROCS && IsOpen(State(), p, fd)
      ensures size == SizeOf(State(), p, fd)
    {
      size := fcbTable[fileDescTable[files[p][fd]].fcb].size;
    }

    /** The calls after a successful open: size, read, close. */
    method LoadOpened(p: nat, fd: nat, buffer: array<Byte>, ghost s: Tables, ghost gone: seq<nat>, ghost i: nat)
      returns (result: int)
      requires Valid() && p < PROCS && Opened(image, s, gone, p, fd, State(), i, buffer.Length)
      modifies buffer, fcbTable, fileDescTable, files[p]
      ensures L.Inv(image, L.World(State(), gone)) && State().files == s.files && L.SameCounts(s.fcbs, State().fcbs)
      ensures ClusterSize(image) > 0 && result == EntrySize(image, i) <= buffer.Length
      ensures buffer[..] == FileBytes(image, EntryCluster(image, i), 0, result) + old(buffer[..])[result..]
    {
      hide L.Inv, L.SameCounts, L.DeliversEntry, CanRead, Reaches, ReadLength, FileByte, ClusterSize, Read, Close,
           ReadOutcome, Delivered, Refused,
           FileBytes, EntrySize, EntryCluster;
      var size := GetFileSize(p, fd);
      var how;
      result, how := ReadFile(p, fd, buffer, size);
      assert buffer[..] == buffer[..result] + buffer[result..];
      assert buffer[result..] == old(buffer[..])[result..];
      CloseFile(p, fd);
    }

    /**
     The file calls of exec and setup_uvm when all goes well: open the file the path names, ask for its
     size, read all of it, close it.
     */
    method LoadFile(p: nat, path: seq<Byte>, buffer: array<Byte>, ghost gone: seq<nat>)
      returns (result: int, ghost entry: nat)
      requires Valid() && p < PROCS && Terminated(path) && L.Inv(image, L.World(State(), gone))
          && PathLoadable(image, path, buffer.Length)
      modifies buffer, fcbTable, fileDescTable, files[p]
      ensures L.Inv(image, L.World(State(), gone))
      ensures result == -1 <==> CannotOpen(image, old(State()), p, path)
      ensures if result == -1 then State() == old(State()) && buffer[..] == old(buffer[..])
              else Loaded(image, path, entry, result, old(buffer[..]), buffer[..], old(State()), State())
    {
      hide L.Inv, L.SameCounts, Loadable, FileByte, FileBytes, ClusterSize, Open, Opened, CannotOpen, EntrySize,
           EntryCluster,
           Names.Names, Text;
      ghost var s := State();
      result, entry := -1, 0;
      ghost var found;
      FoundEntries(path, buffer.Length);
      var fd;
      fd, found := OpenFile(p, path);
      OpenedOrNot(s, gone, p, found, buffer.Length);
      CannotOpenIs(s, p, path, found);
      if fd == -1 {
        return;
      }
      entry := found;
      result := LoadOpened(p, fd, buffer, s, gone, found);
    }

    lemma CannotOpenIs(s: Tables, p: nat, path: seq<Byte>, found: U32)
      requires p < |s.files| && (found != NOT_FOUND ==> found < |s.fcbs|) && Found(path, found)
      ensures Open(image, s, p, found).0 == -1 <==> CannotOpen(image, s, p, path)
    {
      hide Text, IsName, Matches, GetFcb;
    }

    lemma FoundEntries(path: seq<Byte>, room: nat)
      requires PathLoadable(image, path, room)
      ensures forall found: U32 :: Found(path, found) && found != NOT_FOUND ==>
        found < RootEntryCount(image) && Names.Names(image, Text(path), found) && Loadable(image, found, room)
    {
      hide Loadable;
    }

    lemma OpenedOrNot(s: Tables, gone: seq<nat>, p: nat, found: U32, room: nat)
      requires L.Inv(image, L.World(s, gone)) && p < |s.files|
          && (found != NOT_FOUND ==> found < RootEntryCount(image) && found < |s.fcbs|)
      requires found != NOT_FOUND ==> Loadable(image, found, room)
      ensures var (fd, s1) := Open(image, s, p, found); if fd == -1 then s1 == s
          else fd >= 0 && found != NOT_FOUND && Opened(image, s, gone, p, fd, s1, found, room)
    {
      hide Opened, Loadable, L.Inv;
      if Open(image, s, p, found).0 != -1 {
        OpenedReady(image, s, gone, p, found, room);
      }
    }
  }
}
