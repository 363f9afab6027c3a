/**
 exec with its file: the bytes that the file system delivers become the words of the user page, and
 user code reads them from 0x400000 on.
 */
module Exec {
  import opened Words
  import opened Paging
  import Walks
  import opened Machine
  import opened System
  import opened SystemRuns
  import opened Outcomes
  import opened Memory
  import opened Scheduler
  import opened KernelCode
  import Fat
  import Names
  import Files
  import I = MachineInv
  import R = MachineRuns
  import L = FileLaws
  import V = Volumes
  import F = FileTables
  import Teardown
  import UserMaps

  // Bytes and words: memory is little-endian

  function Pow256(n: nat): (r: nat)
    ensures r >= 1
  {
    if n == 0 then 1 else 256 * Pow256(n - 1)
  }

  function LittleEndian(bytes: seq<Byte>): (w: nat)
    ensures w < Pow256(|bytes|)
  {
    if bytes == [] then 0 else bytes[0] + 256 * LittleEndian(bytes[1..])
  }

  /** Byte j of a word, as a load of one byte gives it. */
  function ByteOf(w: nat, j: nat): Byte {
    if j == 0 then w % 256 else ByteOf(w / 256, j - 1)
  }

  lemma {:induction false} ByteOfLittleEndian(bytes: seq<Byte>, j: nat)
    requires j < |bytes|
    ensures ByteOf(LittleEndian(bytes), j) == bytes[j]
  {
    if j > 0 {
      ByteOfLittleEndian(bytes[1..], j - 1);
    }
  }

  lemma EightBytes()
    ensures Pow256(8) == WORD_LIMIT
  {
    assert Pow256(4) == 0x1_0000_0000;
  }

  function WordAt(bytes: seq<Byte>, k: nat): Word
    requires 8 * k + 8 <= |bytes|
  {
    EightBytes();
    LittleEndian(bytes[8 * k..8 * k + 8])
  }

  /** The words of a page with these bytes. */
  function PageOf(bytes: seq<Byte>): Page
    requires |bytes| == PAGE_SIZE
  {
    seq(PAGE_WORDS, k requires 0 <= k < PAGE_WORDS => WordAt(bytes, k))
  }

  lemma PageBytes(bytes: seq<Byte>, k: nat)
    requires |bytes| == PAGE_SIZE && k < PAGE_SIZE
    ensures ByteOf(PageOf(bytes)[k / 8], k % 8) == bytes[k]
  {
    var q := k / 8;
    assert bytes[8 * q..8 * q + 8][k % 8] == bytes[k];
    ByteOfLittleEndian(bytes[8 * q..8 * q + 8], k % 8);
  }

  // What user code reads

  /** The byte user code of the map in page root reads at va, if it may. */
  ghost function UserByte(m: Mem, root: nat, va: nat): Option<Byte> {
    var w := UserLoad(m, root, va);
    if w.Some? then Some(ByteOf(w.value, va % 8)) else None
  }

  /** User code reads data from 0x400000 on, and zeros after it up to 0x5fffff. */
  ghost predicate ReadsProgram(m: Mem, root: nat, data: seq<Byte>) {
    forall va: nat :: USER_VA <= va < USER_VA + PAGE_SIZE ==>
      UserByte(m, root, va) == Some(if va - USER_VA < |data| then data[va - USER_VA] else 0)
  }

  /** The contents of a page cleared before data was read into it. */
  ghost predicate Padded(bytes: seq<Byte>, data: seq<Byte>) {
    |data| <= |bytes| && forall k :: 0 <= k < |bytes| ==> bytes[k] == if k < |data| then data[k] else 0
  }

  lemma WordsAreProgram(m: Mem, root: nat, bytes: seq<Byte>, data: seq<Byte>)
    requires |bytes| == PAGE_SIZE && Padded(bytes, data)
    requires forall va: nat :: USER_VA <= va < USER_VA + PAGE_SIZE ==>
      UserLoad(m, root, va) == Some(PageOf(bytes)[(va - USER_VA) / 8])
    ensures ReadsProgram(m, root, data)
  {
    hide UserLoad, PageOf, ByteOf;
    forall va: nat | USER_VA <= va < USER_VA + PAGE_SIZE
      ensures UserByte(m, root, va) == Some(if va - USER_VA < |data| then data[va - USER_VA] else 0)
    {
      PageBytes(bytes, va - USER_VA);
    }
  }

  /** The bytes of the file, in the cluster chain of the entry that the path names. */
  ghost function Data(d: Fat.Image, entry: nat): seq<Byte>
    requires Fat.ClusterSize(d) > 0
  {
    Fat.FileBytes(d, Names.EntryCluster(d, entry), 0, Names.EntrySize(d, entry))
  }

  function ZeroBytes(): seq<Byte> { seq(PAGE_SIZE, _ => 0) }

  /** The running process of y is that of y', and reads data there. */
  ghost predicate RunsProgram(y: Sys, y': Sys, data: seq<Byte>) {
    Slots(y.k) && Current(y.k).pages.Pages? && ReadsProgram(y'.m, Current(y.k).pages.pgd, data)
  }

  lemma ImageRuns(y: Sys, y': Sys, bytes: seq<Byte>, data: seq<Byte>)
    requires |bytes| == PAGE_SIZE && Executed(y, y', PageOf(bytes)) && Padded(bytes, data)
    ensures RunsProgram(y, y', data)
  {
    hide UserLoad, PageOf, ReadsProgram, Padded, OnlyWrites, Kept, StartFrame;
    WordsAreProgram(y'.m, Current(y.k).pages.pgd, bytes, data);
  }

  lemma LoadedIsPadded(d: Fat.Image, path: seq<Byte>, entry: nat, result: int, bytes: seq<Byte>, s: F.Tables,
      s': F.Tables)
    requires Files.Loaded(d, path, entry, result, ZeroBytes(), bytes, s, s')
    ensures Fat.ClusterSize(d) > 0 && |bytes| == PAGE_SIZE && Padded(bytes, Data(d, entry))
  {
    hide Fat.ClusterSize, Fat.FileByte, L.SameCounts, Names.Names, Names.EntrySize, Names.EntryCluster;
  }

  /** After exec the process reads the bytes of the file from 0x400000 on, followed by zeros. */
  lemma ExecReadsFile(y: Sys, d: Fat.Image, path: seq<Byte>, entry: nat, result: int, bytes: seq<Byte>, s: F.Tables,
      s': F.Tables)
    requires Files.Loaded(d, path, entry, result, ZeroBytes(), bytes, s, s') && |bytes| == PAGE_SIZE
    requires Coupled(y) && CanStep(y, Load(PageOf(bytes)))
    ensures Executed(y, Next(y, Load(PageOf(bytes))), PageOf(bytes)) && Fat.ClusterSize(d) > 0
    ensures RunsProgram(y, Next(y, Load(PageOf(bytes))), Data(d, entry))
  {
    hide *;
    LoadedIsPadded(d, path, entry, result, bytes, s, s');
    ExecOutcome(y, PageOf(bytes));
    ImageRuns(y, Next(y, Load(PageOf(bytes))), bytes, Data(d, entry));
  }

  /** On the image of a volume these are the data of the file that the path names, cluster by cluster. */
  lemma ExecReadsVolume(y: Sys, v: V.Volume, path: seq<Byte>, entry: nat, chain: seq<nat>, result: int,
      bytes: seq<Byte>, s: F.Tables, s': F.Tables)
    requires V.Valid(v) && Files.Loaded(V.LayOut(v), path, entry, result, ZeroBytes(), bytes, s, s')
        && V.IsFile(v, entry, chain) && |bytes| == PAGE_SIZE
    requires Coupled(y) && CanStep(y, Load(PageOf(bytes)))
    ensures V.NamesItem(v, Names.Text(path), entry)
    ensures RunsProgram(y, Next(y, Load(PageOf(bytes))), V.FileData(v, entry, chain))
  {
    hide *;
    VolumePadded(v, path, entry, chain, result, bytes, s, s');
    ExecOutcome(y, PageOf(bytes));
    ImageRuns(y, Next(y, Load(PageOf(bytes))), bytes, V.FileData(v, entry, chain));
  }

  lemma VolumePadded(v: V.Volume, path: seq<Byte>, entry: nat, chain: seq<nat>, result: int, bytes: seq<Byte>,
      s: F.Tables, s': F.Tables)
    requires V.Valid(v) && Files.Loaded(V.LayOut(v), path, entry, result, ZeroBytes(), bytes, s, s')
        && V.IsFile(v, entry, chain)
    ensures V.NamesItem(v, Names.Text(path), entry) && Padded(bytes, V.FileData(v, entry, chain))
  {
    hide Files.Loaded, V.LayOut, V.Valid, V.NamesItem, V.Contents;
    V.LoadedFromVolume(v, path, entry, chain, result, ZeroBytes(), bytes, s, s');
  }

  /** Process 1 reads the bytes of its program in the same way after start-up. */
  lemma BootReadsProgram(m: Mem, trapReturn: Word, bytes: seq<Byte>, data: seq<Byte>)
    requires Blank(m) && |bytes| == PAGE_SIZE && Padded(bytes, data)
    ensures var y := BootState(m, trapReturn, PageOf(bytes));
            Slots(y.k) && y.k.procs[1].pages.Pages? && ReadsProgram(y.m, y.k.procs[1].pages.pgd, data)
  {
    hide Blank, BootState, UserLoad, PageOf, ReadsProgram, Padded;
    BootOutcome(m, trapReturn, PageOf(bytes));
    WordsAreProgram(BootState(m, trapReturn, PageOf(bytes)).m,
        BootState(m, trapReturn, PageOf(bytes)).k.procs[1].pages.pgd, bytes, data);
  }

  // The method

  /** What exec does when all goes well, on the memory of process g. */
  lemma LoadIs(y: Sys, image: Page)
    requires Coupled(y) && UserRuns(y.k)
    ensures CanStep(y, Load(image)) && Coupled(Next(y, Load(image)))
    ensures var g := Current(y.k).pages;
            && g.Pages? && Owns(y.m.role, g) && g.user < NPAGES && g.stack < NPAGES
            && y.m.role[g.user] != Free && y.m.role[g.stack] != Free
            && Inv(y.m) && Inv(LoadProgram(y.m, g, image))
            && Next(y, Load(image)) == y.(m := LoadProgram(y.m, g, image))
  {
    hide FreeList, Children, Parents, I.Inv, R.PagesOk, HeapRoles, AllOwn, Mapped, LoadProgram, OnlyWrites, Kept;
    CurrentOwns(y);
    LoadProgramWrites(y.m, Current(y.k).pages, image);
    NextCoupled(y, Load(image));
  }

  /** The words of a page, and of the frame at its top, as exec stores them. */
  lemma NewFrameStores(pages: seq<Page>, p: nat)
    requires p < |pages|
    ensures var m1 := pages[p := SetFrame(pages[p], seq(FRAME_WORDS, _ => 0))];
            var m2 := m1[p := m1[p][FRAME + ELR := USER_VA]];
            m2[p := m2[p][FRAME + SP0 := USER_VA + PAGE_SIZE]] == pages[p := SetFrame(pages[p], NewFrame())]
  {
    var zero := SetFrame(pages[p], seq(FRAME_WORDS, _ => 0));
    assert zero[FRAME + ELR := USER_VA][FRAME + SP0 := USER_VA + PAGE_SIZE] == SetFrame(pages[p], NewFrame());
  }

  /** memset of the trap frame, then the return address and the stack pointer of a new program. */
  method ResetFrame(memory: PhysicalMemory, stack: Word)
    requires memory.ram.Length == NPAGES == |memory.role| && IsPage(stack) && memory.role[Frame(stack)] != Free
    modifies memory.ram
    ensures var m, p := old(memory.State()), Frame(stack);
            memory.State() == SetPage(m, p, SetFrame(m.pages[p], NewFrame()))
  {
    hide Addr, NewFrame, SetFrame;
    ghost var m, p := memory.State(), Frame(stack);
    memory.ram[Frame(stack)] := SetFrame(memory.ram[Frame(stack)], seq(FRAME_WORDS, _ => 0));
    NewFrameStores(m.pages, p);
    assert memory.ram[..] == m.pages[p := SetFrame(m.pages[p], seq(FRAME_WORDS, _ => 0))];
    memory.Store(stack, FRAME + ELR, USER_VA);
    memory.Store(stack, FRAME + SP0, USER_VA + PAGE_SIZE);
  }

  lemma RootAddress(p: nat)
    ensures p * PAGE_SIZE / PAGE_SIZE == p
  {
    DivUnique(p * PAGE_SIZE, PAGE_SIZE, p, 0);
  }

  /** The page the processor finds at 0x400000 through the loaded map. */
  method PageAtUserVa(kernel: KernelState) returns (t: nat)
    requires kernel.Valid() && UserRuns(kernel.pc.Abs())
    ensures var k := kernel.pc.Abs(); Slots(k) && Current(k).pages.Pages? && t == Current(k).pages.user
  {
    hide PhysicalMemory.Valid, Coupled, ProcsOf, I.Inv, KernelState.TableOk, Walks.Walk;
    kernel.LoadedRoot(USER_VA);
    ghost var user := Current(kernel.pc.Abs()).pages.user;
    RootAddress(user);
    RootAddress(Current(kernel.pc.Abs()).pages.pgd);
    var pa := Walks.Walk(kernel.memory.ram[..], kernel.pc.ttbr0 / PAGE_SIZE, USER_VA);
    t := pa.value / PAGE_SIZE;
  }

  /** The image at the physical page t, and a new trap frame. */
  method WriteProgram(memory: PhysicalMemory, ghost g: Pages, t: nat, stack: Word, bytes: array<Byte>)
    requires bytes.Length == PAGE_SIZE && memory.ram.Length == NPAGES && Shape(memory.State())
    requires Owns(memory.role, g) && t == g.user < NPAGES && g.stack < NPAGES && stack == Addr(g.stack)
    modifies memory.ram
    ensures memory.State() == LoadProgram(old(memory.State()), g, PageOf(bytes[..]))
  {
    hide PageOf, NewFrame, SetFrame, Addr, Frame;
    ghost var m, image := memory.State(), PageOf(bytes[..]);
    AddrFrame(g.stack);
    memory.ram[t] := PageOf(bytes[..]);
    assert memory.State() == SetPage(m, t, image);
    ResetFrame(memory, stack);
  }

  method StartProgram(kernel: KernelState, bytes: array<Byte>)
    requires kernel.Valid() && UserRuns(kernel.pc.Abs()) && bytes.Length == PAGE_SIZE
    modifies kernel.memory.ram
    ensures kernel.Valid() && CanStep(old(kernel.Abs()), Load(PageOf(bytes[..])))
    ensures kernel.Abs() == Next(old(kernel.Abs()), Load(PageOf(bytes[..])))
  {
    hide Coupled, CanStep, Next, PageOf, ProcsOf, FreeList, Children, Parents, Owns, LoadProgram, I.Inv, Addr,
         KernelState.TableOk;
    ghost var y, image := kernel.Abs(), PageOf(bytes[..]);
    LoadIs(y, image);
    kernel.CurrentPointers();
    var t := PageAtUserVa(kernel);
    WriteProgram(kernel.memory, Current(y.k).pages, t, kernel.pc.currentProcess.stack, bytes);
  }

  /** exit() as a step of the whole kernel. */
  method ExitCall(kernel: KernelState)
    requires kernel.Valid() && UserRuns(kernel.pc.Abs())
    modifies kernel.pc, kernel.pc.table, kernel.pc.readyList, kernel.pc.waitList, kernel.pc.killList
    ensures kernel.Valid() && CanDo(old(kernel.Abs()), Machine.Exit)
    ensures kernel.Abs() == DoEvent(old(kernel.Abs()), Machine.Exit)
  {
    hide ProcsOf, PhysicalMemory.Valid, I.Inv, ProcessControl.Linked, Coupled, DoEvent, CanDo, ExitProcess, UserRuns;
    ghost var y := kernel.Abs();
    ExitIs(y);
    kernel.pc.LinkedSlots();
    kernel.pc.Exit();
    forall i | 0 <= i < |kernel.pc.table| ensures kernel.PointersOf(kernel.pc.table[i]) {
      assert old(kernel.PointersOf(kernel.pc.table[i]));
    }
  }

  lemma ExitIs(y: Sys)
    requires Coupled(y) && UserRuns(y.k)
    ensures CanDo(y, Machine.Exit) && Coupled(DoEvent(y, Machine.Exit)) && I.Inv(y.k) && y.k.current != 0
    ensures DoEvent(y, Machine.Exit) == y.(k := ExitProcess(y.k))
  {
    hide Paging.Inv, I.Inv, R.PagesOk, HeapRoles, AllOwn, ExitProcess, KeptExcept;
    DoCoupled(y, Machine.Exit);
  }

  /** Every part of the kernel the call can touch is sound, and the path names only entries that fit. */
  ghost predicate CanExec(kernel: KernelState, fs: Files.FileSystem, p: nat, path: seq<Byte>, gone: seq<nat>)
    reads kernel.pc`currentProcess, kernel.pc`pidNum, kernel.pc`ticks, kernel.pc`free, kernel.pc`ttbr0
    reads kernel.pc.table, kernel.pc.readyList, kernel.pc.waitList, kernel.pc.killList
    reads kernel.pc.readyList.items, kernel.pc.waitList.items, kernel.pc.killList.items
    reads kernel.memory, kernel.memory.ram, fs.fcbTable, fs.fileDescTable, fs.files
  {
    && kernel.Valid() && UserRuns(kernel.pc.Abs()) && kernel.pc.Abs().current == p
    && fs.Valid() && Names.Terminated(path) && L.Inv(fs.image, L.World(fs.State(), gone))
    && Files.PathLoadable(fs.image, path, PAGE_SIZE)
  }

  /**
   exec: the process exits if the file cannot be opened; otherwise its page is cleared, the file is
   read into it, and the trap frame is made new.
   */
  method Exec(kernel: KernelState, fs: Files.FileSystem, p: nat, path: seq<Byte>, ghost gone: seq<nat>)
    returns (ok: bool, ghost entry: nat, ghost size: int, ghost bytes: seq<Byte>)
    requires p < F.PROCS && |fs.files| == F.PROCS && CanExec(kernel, fs, p, path, gone)
    modifies kernel.pc, kernel.pc.table, kernel.pc.readyList, kernel.pc.waitList, kernel.pc.killList
    modifies kernel.memory.ram, fs.fcbTable, fs.fileDescTable, fs.files[p]
    ensures kernel.Valid() && L.Inv(fs.image, L.World(fs.State(), gone))
    ensures ok <==> !Files.CannotOpen(fs.image, old(fs.State()), p, path)
    ensures !ok ==>
        fs.State() == old(fs.State()) && CanDo(old(kernel.Abs()), Machine.Exit)
        && kernel.Abs() == DoEvent(old(kernel.Abs()), Machine.Exit)
    ensures ok ==>
        Files.Loaded(fs.image, path, entry, size, ZeroBytes(), bytes, old(fs.State()), fs.State())
        && |bytes| == PAGE_SIZE && CanStep(old(kernel.Abs()), Load(PageOf(bytes)))
        && kernel.Abs() == Next(old(kernel.Abs()), Load(PageOf(bytes)))
  {
    hide L.Inv, Coupled, Next, DoEvent, CanStep, CanDo, PageOf, Files.PathLoadable, Files.CannotOpen, Files.Loaded,
         PhysicalMemory.Valid, KernelState.TableOk, UserRuns, ProcessControl.Abs, ProcsOf;
    var buffer := new Byte[PAGE_SIZE](_ => 0);
    assert buffer[..] == ZeroBytes();
    var result;
    result, entry := fs.LoadFile(p, path, buffer, gone);
    size, bytes := result, buffer[..];
    ok := result != -1;
    if ok {
      StartProgram(kernel, buffer);
    } else {
      ExitCall(kernel);
    }
  }
}
