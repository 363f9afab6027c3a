/**
 The physical page allocator and the page-table code of memory.c, updating memory in place.
 Each method is tied to the function on memory values (Paging, Walks, Teardown) it computes.
 Every method that reads or writes a page requires it to be off the free list, so that none touches a
 page after freeing it. The one exception is Kalloc, which reads the link word of the first free page;
 Kfree takes a page in use and writes its link word just before the page joins the list.
 */
module Memory {
  import opened Words
  import opened Paging
  import opened Walks
  import opened Access
  import opened Teardown
  import opened UserMaps

  const HEAP_END: nat := KERNEL_BASE + 0x30000000

  predicate IsPage(v: nat) {
    v >= KERNEL_BASE && Frame(v) < NPAGES && v == Addr(Frame(v))
  }

  /** A pointer to page t, or NULL. */
  function PageAddr(t: Option<nat>): nat {
    if t.Some? then Addr(t.value) else 0
  }

  function PaDown(v: Word): nat { v / 0x20_0000 * 0x20_0000 }

  /** The next page boundary, in 64-bit arithmetic. */
  function PaUp(v: Word): nat { (v + PAGE_SIZE - 1) % WORD_LIMIT / 0x20_0000 * 0x20_0000 }

  lemma AddrFrame(p: nat)
    requires p < NPAGES
    ensures IsPage(Addr(p)) && Frame(Addr(p)) == p && Addr(p) != 0
    ensures Addr(p) % PAGE_SIZE == 0 && Addr(p) + PAGE_SIZE <= HEAP_END
  {
    DivUnique(p * PAGE_SIZE, PAGE_SIZE, p, 0);
    DivUnique(Addr(p), PAGE_SIZE, 0x7ff_f800_0000 + p, 0);
  }

  lemma PhysicalAddress(t: nat, pa: nat)
    requires t < NPAGES && pa == t * PAGE_SIZE
    ensures pa / PAGE_SIZE == t && pa % PAGE_SIZE == 0 && pa + PAGE_SIZE <= HEAP_END - KERNEL_BASE
    ensures PaDown(USER_VA) + PAGE_SIZE < HEAP_END
  {
    DivUnique(t * PAGE_SIZE, PAGE_SIZE, t, 0);
  }

  lemma PageAligned(v: nat)
    requires KERNEL_BASE <= v && v % PAGE_SIZE == 0 && v + PAGE_SIZE <= HEAP_END
    ensures IsPage(v)
  {
    var q := v / PAGE_SIZE;
    assert v == q * PAGE_SIZE;
    assert KERNEL_BASE == 0x7ff_f800_0000 * PAGE_SIZE;
    DivUnique(v - KERNEL_BASE, PAGE_SIZE, q - 0x7ff_f800_0000, 0);
  }

  lemma PaDownIndices(v: Word)
    ensures L0(PaDown(v)) == L0(v) && L1(PaDown(v)) == L1(v) && L2(PaDown(v)) == L2(v) && PaDown(v) <= v
  {
    assert PaDown(v) / 0x20_0000 == v / 0x20_0000;
    BlockSplit(v);
    BlockIndices(PaDown(v), v);
  }

  /** PA_UP gives the first page boundary at or above v. */
  lemma PaUpIs(v: Word)
    requires KERNEL_BASE <= v && v + PAGE_SIZE < WORD_LIMIT
    ensures var p := (PaUp(v) - KERNEL_BASE) / PAGE_SIZE;
            PaUp(v) >= KERNEL_BASE && p >= 0 && PaUp(v) == Addr(p) && v <= Addr(p) < v + PAGE_SIZE
  {
    var q := (v + PAGE_SIZE - 1) / PAGE_SIZE;
    assert PaUp(v) == q * PAGE_SIZE;
    assert KERNEL_BASE == 0x7ff_f800_0000 * PAGE_SIZE;
    DivUnique(PaUp(v) - KERNEL_BASE, PAGE_SIZE, q - 0x7ff_f800_0000, 0);
  }

  function Clip(p: nat): nat { if p <= NPAGES then p else NPAGES }

  lemma PaDownSame(s: Mem, root: nat, v: Word, attr: nat)
    requires Inv(s) && root < NPAGES && s.role[root].Pgd? && AttrOk(attr)
    ensures EnsurePmd(s, root, PaDown(v), attr) == EnsurePmd(s, root, v, attr)
    ensures PmdFor(EnsurePmd(s, root, v, attr), root, PaDown(v)) == PmdFor(EnsurePmd(s, root, v, attr), root, v)
    ensures L2(PaDown(v)) == L2(v)
  {
    hide L0, L1, L2, PaDown, Inv, Next;
    PaDownIndices(v);
  }

  lemma MapPageAllWalks(s: Mem, root: nat, v: nat, t: nat, attr: nat)
    requires Inv(s) && root < NPAGES && s.role[root].Pgd? && AttrOk(attr)
    requires t < NPAGES && s.role[t] == Held && Walk(s.pages, root, v).None?
    ensures forall r, va :: 0 <= r < NPAGES && 0 <= va && s.role[r].Pgd? ==>
      Walk(Walks.MapPage(s, root, v, t, attr).pages, r, va) ==
        if MapPageOk(s, root, v) && r == root && BlockOf(va) == BlockOf(v) then Some(t * PAGE_SIZE + va % PAGE_SIZE)
        else Walk(s.pages, r, va)
  {
    hide FreeList, Children, Parents, Walk, Walks.MapPage, MapPageOk, BlockOf;
    forall r, va | 0 <= r < NPAGES && 0 <= va && s.role[r].Pgd?
      ensures Walk(Walks.MapPage(s, root, v, t, attr).pages, r, va) ==
        if MapPageOk(s, root, v) && r == root && BlockOf(va) == BlockOf(v) then Some(t * PAGE_SIZE + va % PAGE_SIZE)
        else Walk(s.pages, r, va)
    {
      MapPageWalks(s, root, v, t, attr, r, va);
    }
  }

  /** Exactly the pages that start below the end of the kernel image are reserved. */
  ghost predicate ReservedBelow(role: seq<Role>, end: Word) {
    forall p :: 0 <= p < |role| ==> (role[p] == Reserved <==> Addr(p) < end)
  }

  lemma OrphanedReserved(role: seq<Role>, t: nat, end: Word)
    requires |role| == NPAGES && t < NPAGES && ReservedBelow(role, end) && role[t] != Reserved
    ensures ReservedBelow(Orphaned(role, t), end) && |Orphaned(role, t)| == NPAGES
  {
  }

  lemma PresentNext(s: Mem, p: nat, i: nat)
    requires Shape(s) && p < NPAGES && i < TABLE_LEN
    ensures Next(s.pages, p, i).Some? <==> Present(s.pages[p][i])
  {
  }

  lemma UnlinkPmdsStep(s: Mem, root: nat, n: nat)
    requires Inv(s) && root < NPAGES && s.role[root].Pgd? && n <= TABLE_LEN
    ensures var s' := UnlinkPmds(s, root, n);
            Inv(s') && s'.role[root].Pgd? && (n == 0 ==> s' == s)
                && (n > 0 ==> s' == UnlinkBelow(UnlinkPmds(s, root, n - 1), root, n - 1))
    ensures n > 0 ==> var s1 := UnlinkPmds(s, root, n - 1); Inv(s1) && s1.role[root].Pgd?
  {
    hide FreeList, Children, Parents, PmdsFreed, Pushed, UnlinkBelow, TablesChange;
    UnlinkPmdsDone(s, root, n);
    if n > 0 {
      UnlinkPmdsDone(s, root, n - 1);
    }
  }

  class PhysicalMemory {
    const ram: array<Page>
    const end: Word
    var freeMemory: Word
    ghost var free: seq<nat>
    ghost var role: seq<Role>

    /** The memory value this object holds. */
    ghost function State(): Mem
      reads this, ram
    {
      Mem(ram[..], free, role)
    }

    /** The free list is sound: enough for the allocator alone. */
    ghost predicate Linked()
      reads this, ram
    {
      && ram.Length == |role| == NPAGES && KERNEL_BASE <= end <= HEAP_END
      && FreeList(State())
      && freeMemory == LinkTo(free, 0)
      && ReservedBelow(role, end)
    }

    ghost predicate Valid()
      reads this, ram
    {
      Linked() && Inv(State())
    }

    constructor (end: Word)
      requires KERNEL_BASE <= end <= HEAP_END
      ensures Valid() && fresh(ram) && this.end == end && free == []
      ensures forall p :: 0 <= p < NPAGES && Addr(p) >= end ==> role[p] == Held
    {
      this.end := end;
      ram := new Page[NPAGES](_ => Zeros());
      freeMemory := 0;
      free := [];
      role := seq(NPAGES, p requires 0 <= p < NPAGES => if Addr(p) < end then Reserved else Held);
    }

    method Load(table: Word, index: nat) returns (w: Word)
      requires ram.Length == NPAGES == |role| && IsPage(table) && index < PAGE_WORDS
      requires role[Frame(table)] != Free
      ensures w == ram[Frame(table)][index]
    {
      w := ram[Frame(table)][index];
    }

    method Store(table: Word, index: nat, w: Word)
      requires ram.Length == NPAGES == |role| && IsPage(table) && index < PAGE_WORDS
      requires role[Frame(table)] != Free
      modifies ram
      ensures State() == SetWord(old(State()), Frame(table), index, w)
    {
      var p := Frame(table);
      ram[p] := ram[p][index := w];
      assert ram[..] == old(ram[..])[p := old(ram[..])[p][index := w]];
    }

    /** memset(page, 0, PAGE_SIZE). */
    method Clear(page: Word)
      requires ram.Length == NPAGES == |role| && IsPage(page) && role[Frame(page)] != Free
      modifies ram
      ensures State() == old(State()).(pages := old(ram[..])[Frame(page) := Zeros()])
    {
      ram[Frame(page)] := Zeros();
      assert ram[..] == old(ram[..])[Frame(page) := Zeros()];
    }

    method Kfree(v: Word)
      requires Linked()
      requires v % PAGE_SIZE == 0 && v >= end && v + PAGE_SIZE <= HEAP_END
      requires IsPage(v) ==> role[Frame(v)] != Free
      modifies this, ram
      ensures IsPage(v) && Linked() && State() == Push(old(State()), Frame(v))
    {
      PageAligned(v);
      ghost var p := Frame(v);
      PushFreeList(State(), p);
      ghost var s' := Push(State(), p);
      Store(v, 0, freeMemory);
      freeMemory := v;
      free := [p] + free;
      role := role[p := Free];
      assert State() == s';
    }

    method Kalloc() returns (page: Word)
      requires Valid()
      modifies this
      ensures Valid()
      ensures old(free) == [] ==> page == 0 && State() == old(State())
      ensures old(free) != [] ==> page == Addr(old(free)[0]) && IsPage(page) && State() == Pop(old(State()))
    {
      page := freeMemory;
      if page != 0 {
        AddrFrame(free[0]);
        PopInv(State());
        assert ram[..][free[0]][0] == LinkTo(free, 1);
        freeMemory := ram[Frame(page)][0];
        role := role[free[0] := Held];
        free := free[1..];
      }
    }

    /** kfree on a page that is part of no map. */
    method FreeHeld(v: Word)
      requires Valid() && IsPage(v) && role[Frame(v)] == Held
      modifies this, ram
      ensures Valid() && State() == Push(old(State()), Frame(v))
      ensures free == [Frame(v)] + old(free) && role == old(role)[Frame(v) := Free]
    {
      AboveEnd(Frame(v));
      HeldPush(State(), Frame(v));
      hide FreeList, Children, Parents, Addr;
      Kfree(v);
    }

    /** Free the whole pages between v and e, lowest first. */
    method FreeRegion(v: Word, e: Word)
      requires Valid() && end <= v && v + PAGE_SIZE < WORD_LIMIT && e + PAGE_SIZE < WORD_LIMIT
      requires forall p :: 0 <= p < NPAGES && v <= Addr(p) && Addr(p) + PAGE_SIZE <= e ==> role[p] == Held
      modifies this, ram
      ensures Valid() && Pushed(old(free), free)
      ensures forall p :: 0 <= p < NPAGES ==>
        role[p] == if v <= Addr(p) && Addr(p) + PAGE_SIZE <= e then Free else old(role[p])
      ensures forall k :: 0 < k < |free| - |old(free)| ==> free[k - 1] == free[k] + 1
    {
      var start := PaUp(v);
      hide Inv, FreeList, PaUp, Push;
      PaUpIs(v);
      ghost var first := (start - KERNEL_BASE) / PAGE_SIZE;
      ghost var p := first;
      while start + PAGE_SIZE <= e
        invariant Valid() && Pushed(old(free), free)
        invariant first <= p && start == Addr(p) && start < WORD_LIMIT && (p == first || start <= e)
        invariant forall q :: 0 <= q < NPAGES ==> role[q] == if first <= q < p then Free else old(role[q])
        invariant |free| == |old(free)| + Clip(p) - Clip(first)
        invariant forall k :: 0 <= k < |free| - |old(free)| ==> free[k] == Clip(p) - 1 - k
        decreases e - start
      {
        if start + PAGE_SIZE <= HEAP_END {
          AddrFrame(p);
          FreeHeld(start);
        }
        start := start + PAGE_SIZE;
        p := p + 1;
      }
    }

    /** Put every whole page between the end of the kernel and the end of the heap on the free list. */
    method InitMemory()
      requires Valid() && free == []
      requires forall p :: 0 <= p < NPAGES && Addr(p) >= end ==> role[p] == Held
      modifies this, ram
      ensures Valid()
      ensures forall p :: 0 <= p < NPAGES ==> (p in free <==> end <= Addr(p))
      ensures forall p :: 0 <= p < NPAGES ==> role[p] == if end <= Addr(p) then Free else Reserved
      ensures forall k :: 0 < k < |free| ==> free[k - 1] == free[k] + 1
    {
      FreeRegion(end, HEAP_END);
      assert Inv(State());
    }

    method FindPgdEntry(pgd: Word, v: Word, alloc: bool, attribute: nat) returns (addr: Word)
      requires Valid() && IsPage(pgd) && role[Frame(pgd)].Pgd? && (alloc ==> AttrOk(attribute))
      modifies this, ram
      ensures Valid()
      ensures State() == if alloc then EnsureTable(old(State()), Frame(pgd), L0(v), attribute) else old(State())
      ensures addr == PageAddr(Next(ram[..], Frame(pgd), L0(v)))
    {
      addr := FindTable(pgd, L0(v), alloc, attribute);
    }

    /** The page below entry i of a table, allocated and cleared on demand. */
    method FindTable(table: Word, index: nat, alloc: bool, attribute: nat) returns (addr: Word)
      requires Valid() && IsPage(table) && (role[Frame(table)].Pgd? || role[Frame(table)].Pud?)
      requires index < TABLE_LEN && (alloc ==> AttrOk(attribute))
      modifies this, ram
      ensures Valid()
      ensures State() == if alloc then EnsureTable(old(State()), Frame(table), index, attribute) else old(State())
      ensures addr == PageAddr(Next(ram[..], Frame(table), index))
    {
      hide FreeList, Children, Parents, PdeAddr, PteAddr, Or, Target;
      ghost var s, p := State(), Frame(table);
      addr := 0;
      var e := Load(table, index);
      NextIs(s, p, index);
      if Present(e) {
        addr := KERNEL_BASE + PdeAddr(e);
      } else if alloc {
        EnsureTableKeeps(s, p, index, attribute);
        addr := Kalloc();
        if addr != 0 {
          EntryRoundTrip(s.free[0], attribute, true);
          Clear(addr);
          Store(table, index, Or(Or(addr - KERNEL_BASE, attribute), TABLE_ENTRY));
          role := role[Frame(addr) := ChildRole(role[p], p, index)];
          assert State() == Link(s, p, index, attribute);
        }
      }
    }

    method FindPudEntry(pgd: Word, v: Word, alloc: bool, attribute: nat) returns (addr: Word)
      requires Valid() && IsPage(pgd) && role[Frame(pgd)].Pgd? && (alloc ==> AttrOk(attribute))
      modifies this, ram
      ensures Valid()
      ensures State() == if alloc then EnsurePmd(old(State()), Frame(pgd), v, attribute) else old(State())
      ensures addr == PageAddr(PmdFor(State(), Frame(pgd), v))
    {
      hide FreeList, Children, Parents, Next, L0, L1, EnsureTable;
      ghost var s, root := State(), Frame(pgd);
      Indices(v);
      NextIs(s, root, L0(v));
      if alloc {
        EnsureTableKeeps(s, root, L0(v), attribute);
        SecondTable(s, root, v, attribute);
      }
      var ptr := FindPgdEntry(pgd, v, alloc, attribute);
      addr := 0;
      if ptr != 0 {
        ghost var u := Next(ram[..], root, L0(v)).value;
        AddrFrame(u);
        addr := FindTable(ptr, L1(v), alloc, attribute);
      }
    }

    /** Map the 2 MB block of v to the page at physical address pa; false when a table cannot be allocated. */
    method MapPage(pgd: Word, v: Word, pa: nat, attribute: nat) returns (ok: bool)
      requires Valid() && IsPage(pgd) && role[Frame(pgd)].Pgd? && AttrOk(attribute)
      requires PaDown(v) + PAGE_SIZE < HEAP_END && pa % PAGE_SIZE == 0 && pa + PAGE_SIZE <= HEAP_END - KERNEL_BASE
      requires role[pa / PAGE_SIZE] == Held && Walk(ram[..], Frame(pgd), v).None?
      modifies this, ram
      ensures Valid()
      ensures State() == Walks.MapPage(old(State()), Frame(pgd), v, pa / PAGE_SIZE, attribute)
      ensures ok == MapPageOk(old(State()), Frame(pgd), v)
      ensures ok ==> LeafEntry(State(), Frame(pgd), v) == Some(pa + attribute)
      ensures forall r, va :: 0 <= r < NPAGES && 0 <= va && old(role[r]).Pgd? ==>
        Walk(ram[..], r, va) ==
          if ok && r == Frame(pgd) && BlockOf(va) == BlockOf(v) then Some(pa + va % PAGE_SIZE)
              else old(Walk(ram[..], r, va))
    {
      hide FreeList, Children, Parents, Next, L0, L1, L2, EnsurePmd, Walk, MapPageOk, PaDown, BlockOf, PdeAddr,
           PteAddr, Or, BlockFrame, MissingTables;
      ghost var s, root, t := State(), Frame(pgd), pa / PAGE_SIZE;
      assert pa == t * PAGE_SIZE;
      WalkIsBlockFrame(s, root, v);
      EnsurePmdKeeps(s, root, v, attribute);
      MapPageInv(s, root, v, t, attribute);
      if MapPageOk(s, root, v) {
        MapPageLeaf(s, root, v, t, attribute);
      }
      MapPageAllWalks(s, root, v, t, attribute);
      var vstart := PaDown(v);
      PaDownSame(s, root, v, attribute);
      var ptr := FindPudEntry(pgd, vstart, true, attribute);
      ok := ptr != 0;
      if ok {
        Indices(v);
        ghost var d := PmdFor(State(), root, v).value;
        PmdForIs(State(), root, v);
        AddrFrame(d);
        EntryRoundTrip(t, attribute, false);
        Store(ptr, L2(vstart), Or(Or(pa, attribute), BLOCK_ENTRY));
        role := role[t := Block(d, L2(v))];
      }
      assert State() == Walks.MapPage(s, root, v, t, attribute);
    }

    /** If entry index of the table is valid, free the page it points to and clear the entry. */
    method ReleaseEntry(table: Word, index: nat)
      requires Valid() && IsPage(table) && index < TABLE_LEN && RowTable(State(), Frame(table))
      modifies this, ram
      ensures Valid() && State() == UnlinkEntry(old(State()), Frame(table), index)
    {
      hide FreeList, Children, Parents, RowTable, PdeAddr, PteAddr, Pushed, OnlyFreedChange, Orphaned, ReservedBelow;
      ghost var s, p := State(), Frame(table);
      HeadFree(s);
      TableRole(s, p);
      UnlinkEntryKeeps(s, p, index);
      NextIs(s, p, index);
      var e := Load(table, index);
      if Present(e) {
        ghost var t := Target(e);
        AboveEnd(t);
        OrphanedReserved(role, t, end);
        Kfree(KERNEL_BASE + PdeAddr(e));
        assert State() == Push(s, t);
        Store(table, index, 0);
        role := Orphaned(s.role, t);
        assert State() == Unlink(s, t);
      }
    }

    lemma TableRole(s: Mem, p: nat)
      requires RowTable(s, p)
      ensures p < NPAGES && |s.role| == NPAGES && IsTable(s.role[p])
    {
    }

    /** Pages in use lie above the kernel image. */
    lemma AboveEnd(p: nat)
      requires Linked() && p < NPAGES && role[p] != Reserved
      ensures IsPage(Addr(p)) && Frame(Addr(p)) == p && Addr(p) >= end && Addr(p) % PAGE_SIZE == 0
          && Addr(p) + PAGE_SIZE <= HEAP_END
    {
      AddrFrame(p);
    }

    /** Free the page mapped at v, if there is one. */
    method FreePage(pgd: Word, v: Word)
      requires Valid() && IsPage(pgd) && role[Frame(pgd)].Pgd? && v % PAGE_SIZE == 0
      modifies this, ram
      ensures Valid() && State() == Teardown.FreePage(old(State()), Frame(pgd), v)
    {
      hide FreeList, Children, Parents, PmdFor, Next, L2;
      ghost var s, root := State(), Frame(pgd);
      PmdForIs(s, root, v);
      Indices(v);
      var ptr := FindPudEntry(pgd, v, false, 0);
      if ptr != 0 {
        AddrFrame(PmdFor(s, root, v).value);
        ReleaseEntry(ptr, L2(v));
      }
    }

    /** Free the level-2 tables. */
    method FreePmd(pgd: Word)
      requires Valid() && IsPage(pgd) && role[Frame(pgd)].Pgd?
      modifies this, ram
      ensures Valid() && State() == UnlinkPmds(old(State()), Frame(pgd), TABLE_LEN)
    {
      hide FreeList, Children, Parents, PdeAddr, PteAddr, UnlinkPmds, UnlinkRow;
      ghost var s, root := State(), Frame(pgd);
      UnlinkPmdsStep(s, root, 0);
      var i := 0;
      while i < 512
        invariant 0 <= i <= 512 && Valid() && role[root].Pgd?
        invariant State() == UnlinkPmds(s, root, i)
      {
        ghost var s1 := State();
        UnlinkPmdsStep(s, root, i + 1);
        NextIs(s1, root, i);
        var e := Load(pgd, i);
        if Present(e) {
          AddrFrame(Target(e));
          FreeRow(KERNEL_BASE + PdeAddr(e));
          assert State() == UnlinkBelow(s1, root, i);
        }
        i := i + 1;
      }
    }

    /** Free what the entries of one table point to. */
    method FreeRow(table: Word)
      requires Valid() && IsPage(table) && RowTable(State(), Frame(table))
      modifies this, ram
      ensures Valid() && State() == UnlinkRow(old(State()), Frame(table), TABLE_LEN)
    {
      hide FreeList, Children, Parents, UnlinkEntry, RowTable, RowFreed, Pushed, OnlyFreedChange;
      ghost var s, p := State(), Frame(table);
      var j := 0;
      while j < 512
        invariant 0 <= j <= 512 && Valid() && RowTable(State(), p)
        invariant State() == UnlinkRow(s, p, j)
      {
        assert RowDone(s, UnlinkRow(s, p, j + 1), p, j + 1);
        ReleaseEntry(table, j);
        j := j + 1;
      }
    }

    /** Free the level-1 tables. */
    method FreePud(pgd: Word)
      requires Valid() && IsPage(pgd) && RowTable(State(), Frame(pgd))
      modifies this, ram
      ensures Valid() && State() == UnlinkRow(old(State()), Frame(pgd), TABLE_LEN)
    {
      FreeRow(pgd);
    }

    /**
     Free a map: its page at 0x400000, its tables, its root. Other maps translate as before, and
     pages that are not part of the map keep their contents.
     */
    method FreeVm(pgd: Word)
      requires Valid() && IsPage(pgd) && role[Frame(pgd)].Pgd?
      modifies this, ram
      ensures Valid() && State() == Teardown.FreeVm(old(State()), Frame(pgd))
      ensures role == AfterFree(old(role), Frame(pgd)) && Pushed(old(free), free)
      ensures forall q :: 0 <= q < NPAGES && role[q] != Free && !old(role[q]).Pud? && !old(role[q]).Pmd? ==>
          ram[q] == old(ram[q])
    {
      hide FreeList, Children, Parents, AfterFree, PmdsFreed, PmdsDone, RowFreed, Pushed, RowTable,
           Teardown.FreePage, UnlinkPmds, UnlinkRow, IsLeafAt;
      ghost var s, root := State(), Frame(pgd);
      FreeVmDone(s, root);
      FreePageKeeps(s, root, USER_VA);
      FreePage(pgd, USER_VA);
      ghost var s1 := State();
      UnlinkPmdsDone(s1, root, TABLE_LEN);
      FreePmd(pgd);
      NoPmdsLeft(s1, State(), root);
      FreePud(pgd);
      AboveEnd(root);
      Kfree(pgd);
    }

    /** memcpy of whole words from page src to the data page dst. */
    method CopyWords(dst: Word, src: Word, n: nat)
      requires Valid() && IsPage(dst) && IsPage(src) && n <= PAGE_WORDS
      requires role[Frame(dst)] != Free && !IsTable(role[Frame(dst)]) && role[Frame(src)] != Free
      modifies ram
      ensures Valid() && State() == Copied(old(State()), Frame(dst), Frame(src), n)
    {
      hide FreeList, Children, Parents;
      ghost var s := State();
      WriteData(s, Frame(dst), ram[Frame(src)][..n] + ram[Frame(dst)][n..]);
      ram[Frame(dst)] := ram[Frame(src)][..n] + ram[Frame(dst)][n..];
      assert ram[..] == Copied(s, Frame(dst), Frame(src), n).pages;
    }

    /** Take, clear and map a user page; on failure everything dst had is freed. NULL when nothing was mapped. */
    method NewUserPage(pgd: Word) returns (page: Word, mapped: bool)
      requires Valid() && IsPage(pgd) && role[Frame(pgd)].Pgd? && Walk(ram[..], Frame(pgd), USER_VA).None?
      modifies this, ram
      ensures Valid()
      ensures old(free) == [] ==> page == 0 && !mapped && State() == old(State())
      ensures old(free) != [] ==> page == Addr(old(free)[0]) && mapped == EnoughPages(old(State()), Frame(pgd))
      ensures old(free) != [] ==>
        State() == if mapped then WithUserPage(old(State()), Frame(pgd)) else RollBack(old(State()), Frame(pgd))
    {
      assert free != [] ==> free[0] < NPAGES;
      hide FreeList, Children, Parents, Walk, BlockFrame, MissingTables, AfterFree, PdeAddr, PteAddr, L0, L1, L2,
           BlockOf, Walks.MapPage, MapPageOk, Teardown.FreeVm, AttrOk, PaDown, ReservedBelow;
      ghost var s, d := State(), Frame(pgd);
      mapped := false;
      page := Kalloc();
      if page != 0 {
        ghost var t := s.free[0];
        AddrFrame(t);
        UvmAttributes();
        MapUserPage(s, d);
        Clear(page);
        assert State() == TakeZeroed(s);
        var pa: nat := page - KERNEL_BASE;
        PhysicalAddress(t, pa);
        mapped := MapPage(pgd, USER_VA, pa, UVM_ATTR);
        assert State() == WithUserPage(s, d);
        if !mapped {
          FreeHeld(page);
          FreeVm(pgd);
        }
      }
    }

    /** Give dst a fresh user page that starts with the first n words of src's. */
    method CopyUvm(dst: Word, src: Word, n: nat) returns (status: bool)
      requires Valid() && IsPage(dst) && IsPage(src) && n <= PAGE_WORDS
      requires CanCopy(State(), Frame(dst), Frame(src))
      modifies this, ram
      ensures Valid() && (status, State()) == UserMaps.CopyUvm(old(State()), Frame(dst), Frame(src), n)
    {
      assert free != [] ==> free[0] < NPAGES;
      hide FreeList, Children, Parents, Walk, MissingTables, AfterFree, PdeAddr, PteAddr, L0, L1, L2, Walks.MapPage,
           Teardown.FreeVm, WithUserPage, ReservedBelow, Frame, IsPage, Addr, EnoughPages;
      ghost var s, d, r := State(), Frame(dst), Frame(src);
      var page;
      page, status := NewUserPage(dst);
      if status {
        ghost var s2 := State();
        WithUserPageFacts(s, d);
        RootKept(s, d, r);
        SourcePath(s, d, r);
        var pd := FindPudEntry(src, USER_VA, false, 0);
        if pd == 0 {
          FreeVm(dst);
          status := false;
        } else {
          SourcePage(s, d, r);
          AddrFrame(s.free[0]);
          CopySource(page, src, pd, n);
        }
      }
    }

    /** Copy n words of src's user page, found through its level-2 table, to the data page at page. */
    method CopySource(page: Word, src: Word, pd: Word, n: nat)
      requires Valid() && IsPage(page) && IsPage(src) && n <= PAGE_WORDS
      requires role[Frame(src)].Pgd? && role[Frame(page)].Block?
      requires pd == PageAddr(PmdFor(State(), Frame(src), USER_VA)) && BlockFrame(ram[..], Frame(src), USER_VA).Some?
      modifies ram
      ensures BlockFrame(old(ram[..]), Frame(src), USER_VA).value < NPAGES
      ensures Valid()
          && State() == Copied(old(State()), Frame(page), BlockFrame(old(ram[..]), Frame(src), USER_VA).value, n)
    {
      hide FreeList, Children, Parents, L0, L1, L2;
      LeafIs(State(), Frame(src), USER_VA);
      var start := MappedAt(pd, USER_VA, State(), Frame(src));
      AddrFrame(BlockFrame(ram[..], Frame(src), USER_VA).value);
      CopyWords(page, start, n);
    }

    /** The kernel address of the page a level-2 table maps v to. */
    method MappedAt(pd: Word, v: Word, ghost s: Mem, ghost root: nat) returns (start: Word)
      requires Valid() && s == State() && root < NPAGES && role[root].Pgd?
      requires pd == PageAddr(PmdFor(s, root, v)) && BlockFrame(s.pages, root, v).Some?
      ensures BlockFrame(s.pages, root, v).value < NPAGES && start == Addr(BlockFrame(s.pages, root, v).value)
    {
      hide FreeList, Children, Parents, PdeAddr, PteAddr, L0, L1, L2, Next;
      PmdForIs(s, root, v);
      ghost var d := PmdFor(s, root, v).value;
      AddrFrame(d);
      Indices(v);
      NextIs(s, d, L2(v));
      PresentNext(s, d, L2(v));
      var e := Load(pd, L2(v));
      start := KERNEL_BASE + PteAddr(e);
    }

    /** Load a program into a fresh user page; open_file and read_file are given by what they deliver. */
    method SetupUvm(pgd: Word, program: Program) returns (status: bool)
      requires Valid() && IsPage(pgd) && role[Frame(pgd)].Pgd? && Walk(ram[..], Frame(pgd), USER_VA).None?
      requires program.Read? ==> |program.words| <= PAGE_WORDS
      modifies this, ram
      ensures Valid() && (status, State()) == UserMaps.SetupUvm(old(State()), Frame(pgd), program)
    {
      assert free != [] ==> free[0] < NPAGES;
      hide FreeList, Children, Parents, Walk, MissingTables, AfterFree, PdeAddr, PteAddr, L0, L1, L2, Walks.MapPage,
           Teardown.FreeVm, WithUserPage, ReservedBelow;
      ghost var s, d := State(), Frame(pgd);
      var page;
      page, status := NewUserPage(pgd);
      if status {
        WithUserPageFacts(s, d);
        if program.NoFile? {
          FreeVm(pgd);
          return false;
        }
        AddrFrame(s.free[0]);
        WriteWords(page, program.words);
        if !program.complete {
          FreeVm(pgd);
          return false;
        }
      }
    }

    /** Write words at the start of a user page. */
    method WriteWords(page: Word, words: seq<Word>)
      requires Valid() && IsPage(page) && role[Frame(page)].Block? && |words| <= PAGE_WORDS
      modifies ram
      ensures Valid() && State() == Loaded(old(State()), Frame(page), words)
    {
      hide FreeList, Children, Parents;
      ghost var s := State();
      LoadedInv(s, Frame(page), words);
      ram[Frame(page)] := words + ram[Frame(page)][|words|..];
      assert ram[..] == Loaded(s, Frame(page), words).pages;
    }
  }
}
