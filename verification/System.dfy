/**
 Processes and memory together: fork, exec, exit and wait acting on the page allocator and the
 page tables, stores of user code going through the table walk, and the trap frame at the top of
 each kernel stack.
 */
module System {
  import opened Words
  import opened Paging
  import opened Walks
  import opened Access
  import opened Teardown
  import opened UserMaps
  import opened Machine
  import I = MachineInv
  import R = MachineRuns

  const FRAME_WORDS := 36
  const FRAME := PAGE_WORDS - FRAME_WORDS
  const X0 := 0
  const SP0 := 31
  const ELR := 34

  type TrapFrame = f: seq<Word> | |f| == FRAME_WORDS witness seq(FRAME_WORDS, _ => 0)

  /** Scheduler state, memory, and the pages init_memory and init_fs left for processes. */
  datatype Sys = Sys(k: Kernel, m: Mem, heap: set<nat>)

  /** The trap frame of a process that has not run: start at 0x400000 with the stack at the end of that page. */
  function NewFrame(): TrapFrame {
    seq(FRAME_WORDS, _ => 0)[SP0 := USER_VA + PAGE_SIZE][ELR := USER_VA]
  }

  function SetFrame(stack: Page, frame: TrapFrame): Page { stack[..FRAME] + frame }

  function FrameOf(stack: Page): TrapFrame { stack[FRAME..] }

  lemma FrameRoundTrip(stack: Page, frame: TrapFrame)
    ensures FrameOf(SetFrame(stack, frame)) == frame && SetFrame(stack, frame)[..FRAME] == stack[..FRAME]
  {
  }

  /** A cleared stack page whose saved context returns to trap_return, and whose trap frame is new. */
  function FreshStack(trapReturn: Word): Page {
    SetFrame(Zeros()[FRAME - 1 := trapReturn], NewFrame())
  }

  // alloc_new_process

  ghost function WithPage(m: Mem, contents: Page, role: Role): Mem
    requires Shape(m) && m.free != [] && m.free[0] < NPAGES
  {
    Mem(m.pages[m.free[0] := contents], m.free[1..], m.role[m.free[0] := role])
  }

  /** Taking a page for data or, cleared, for the root of a new map. */
  lemma WithPageInv(m: Mem, contents: Page, role: Role)
    requires Inv(m) && m.free != [] && (role == Held || (role == Pgd && contents == Zeros()))
    ensures Inv(WithPage(m, contents, role))
  {
    hide PdeAddr, PteAddr, Addr, FreeList;
    var t := m.free[0];
    WithPageFree(m, contents, role);
    var s' := WithPage(m, contents, role);
    ZeroAbsent();
    forall p, i | 0 <= p < NPAGES && 0 <= i < TABLE_LEN && IsTable(s'.role[p]) && Present(s'.pages[p][i])
      ensures ChildOk(s', p, i)
    {
      if p != t {
        assert ChildOk(m, p, i);
      }
    }
    forall q | 0 <= q < NPAGES && IsLinked(s'.role[q]) ensures ParentOk(s', q) {
      assert ParentOk(m, q);
    }
  }

  lemma ZeroAbsent()
    ensures !Present(0) && forall i :: 0 <= i < PAGE_WORDS ==> Zeros()[i] == 0
  {
  }

  lemma WithPageFree(m: Mem, contents: Page, role: Role)
    requires FreeList(m) && m.free != [] && role != Free
    ensures m.free[0] < NPAGES && m.role[m.free[0]] == Free && FreeList(WithPage(m, contents, role))
  {
    hide FreeLinks, FreeRoles, NoDup;
    HeadFree(m);
    WithPageLinks(m, contents, role);
    WithPageRoles(m, contents, role);
  }

  lemma WithPageLinks(m: Mem, contents: Page, role: Role)
    requires FreeList(m) && m.free != [] && m.free[0] < NPAGES
    ensures FreeLinks(WithPage(m, contents, role))
  {
    hide PdeAddr, PteAddr, Addr, FreeRoles;
    var s' := WithPage(m, contents, role);
    forall k | 0 <= k < |s'.free| ensures s'.free[k] < NPAGES && s'.pages[s'.free[k]][0] == LinkTo(s'.free, k + 1) {
      assert s'.free[k] == m.free[k + 1];
    }
  }

  lemma WithPageRoles(m: Mem, contents: Page, role: Role)
    requires FreeList(m) && m.free != [] && m.free[0] < NPAGES && role != Free
    ensures FreeRoles(WithPage(m, contents, role)) && NoDup(WithPage(m, contents, role).free)
  {
    hide FreeLinks;
    var s' := WithPage(m, contents, role);
    forall k | 0 <= k < |s'.free| ensures s'.free[k] < NPAGES && s'.role[s'.free[k]] == Free {
      assert s'.free[k] == m.free[k + 1];
    }
    forall p | 0 <= p < NPAGES && s'.role[p] == Free ensures p in s'.free {
      assert p in m.free && p != m.free[0];
    }
  }

  // A first user page in a new map

  ghost predicate FreshRoot(m: Mem, root: nat) {
    Shape(m) && root < NPAGES && m.role[root] == Pgd && m.pages[root] == Zeros()
  }

  lemma FreshRootEmpty(m: Mem, root: nat, va: nat)
    requires Inv(m) && FreshRoot(m, root)
    ensures Next(m.pages, root, L0(va)).None? && PmdFor(m, root, va).None? && MissingTables(m, root, va) == 2
    ensures BlockFrame(m.pages, root, va).None? && Walk(m.pages, root, va).None?
  {
    hide PdeAddr, PteAddr, FreeList, Children, Parents, L0, L1, L2, Walk;
    ZeroAbsent();
    Indices(va);
    WalkIsBlockFrame(m, root, va);
  }

  lemma UserIndices()
    ensures L0(USER_VA) == 0 && L1(USER_VA) == 0 && L2(USER_VA) == 2
  {
  }

  /** From m to s the tables u and d for 0x400000 were hung below root, and nothing else changed. */
  ghost predicate TablesAdded(m: Mem, s: Mem, root: nat, u: nat, d: nat) {
    && Shape(m) && Shape(s) && root < NPAGES && u < NPAGES && d < NPAGES && root != d && u != d
    && s.pages[root][0] == Entry(u, UVM_ATTR, TABLE_ENTRY) && s.pages[u][0] == Entry(d, UVM_ATTR, TABLE_ENTRY)
    && s.role == m.role[u := Pud(root, 0)][d := Pmd(u, 0)]
    && forall q :: 0 <= q < NPAGES && q !in {root, u, d} ==> s.pages[q] == m.pages[q]
  }

  lemma EnsurePmdFresh(m: Mem, root: nat, attr: nat)
    requires Inv(m) && FreshRoot(m, root) && |m.free| >= 2 && AttrOk(attr) && attr == UVM_ATTR
    ensures var s := EnsurePmd(m, root, USER_VA, attr);
            && Inv(s) && s.free == m.free[2..] && TablesAdded(m, s, root, m.free[0], m.free[1])
            && PmdFor(s, root, USER_VA) == Some(m.free[1])
  {
    hide PdeAddr, PteAddr, Entry, Addr, L0, L1, L2, FreeList, Children, Parents, AttrOk;
    TwoFree(m);
    UserIndices();
    ZeroAbsent();
    var u := m.free[0];
    EnsureTableKeeps(m, root, 0, attr);
    var s1 := EnsureTable(m, root, 0, attr);
    assert s1 == Link(m, root, 0, attr);
    assert s1.pages[u] == Zeros();
    EnsureTableKeeps(s1, u, 0, attr);
    assert EnsureTable(s1, u, 0, attr) == Link(s1, u, 0, attr);
    LinkNext(s1, u, 0, attr, root, 0);
  }

  lemma MapPageFresh(m: Mem, root: nat, t: nat, attr: nat)
    requires Inv(m) && FreshRoot(m, root) && |m.free| >= 2 && AttrOk(attr) && attr == UVM_ATTR
    requires t < NPAGES && m.role[t] == Held
    ensures var s, u, d := MapPage(m, root, USER_VA, t, attr), m.free[0], m.free[1];
            s.free == m.free[2..] && UserPageAdded(m, s, root, t, u, d)
  {
    assert m.free[0] < NPAGES && m.free[1] < NPAGES;
    hide PdeAddr, PteAddr, Entry, Addr, L0, L1, L2, FreeList, Children, Parents, AttrOk, EnsurePmd, PmdFor;
    hide TablesAdded, UserPageAdded, SetBlock;
    EnsurePmdFresh(m, root, attr);
    UserIndices();
    BlockAfterTables(m, EnsurePmd(m, root, USER_VA, attr), root, t, m.free[0], m.free[1], attr);
  }

  lemma BlockAfterTables(m: Mem, s: Mem, root: nat, t: nat, u: nat, d: nat, attr: nat)
    requires TablesAdded(m, s, root, u, d) && t < NPAGES && AttrOk(attr) && attr == UVM_ATTR
    ensures UserPageAdded(m, SetBlock(s, d, 2, t, attr), root, t, u, d) && SetBlock(s, d, 2, t, attr).free == s.free
  {
    hide AttrOk, Entry;
    EntryRoundTrip(t, attr, false);
  }

  ghost predicate UserPageAdded(m: Mem, s: Mem, root: nat, t: nat, u: nat, d: nat) {
    && Shape(m) && Shape(s) && t < NPAGES && u < NPAGES && d < NPAGES
    && s.role == m.role[u := Pud(root, 0)][d := Pmd(u, 0)][t := Block(d, 2)]
    && UserPath(s.pages, root, u, d, t)
    && forall q :: 0 <= q < NPAGES && q !in {root, u, d, t} ==> s.pages[q] == m.pages[q]
  }

  lemma UserPageInFreshRoot(m: Mem, root: nat)
    requires Inv(m) && FreshRoot(m, root) && |m.free| >= 3
    ensures var s, t := WithUserPage(m, root), m.free[0];
            && EnoughPages(m, root) && Inv(s) && s.free == m.free[3..]
            && UserPageAdded(m, s, root, t, m.free[1], m.free[2])
  {
    assert m.free[0] < NPAGES && root != m.free[0] && m.free[1] != m.free[0] && m.free[2] != m.free[0] by {
      assert m.role[m.free[0]] == Free;
    }
    FreshRootEmpty(m, root, USER_VA);
    hide PdeAddr, PteAddr, Entry, Addr, L0, L1, L2, FreeList, Children, Parents, AttrOk, MapPage, Walk, AfterFree,
         MissingTables, PmdFor;
    hide UserPageAdded;
    UvmAttributes();
    TakeZeroedInv(m);
    WithUserPageFacts(m, root);
    MapPageFresh(TakeZeroed(m), root, m.free[0], UVM_ATTR);
    AddedAfterTaking(m, WithUserPage(m, root), root, m.free[1], m.free[2]);
  }

  lemma AddedAfterTaking(m: Mem, s: Mem, root: nat, u: nat, d: nat)
    requires Shape(m) && m.free != [] && m.free[0] < NPAGES && u != m.free[0] && d != m.free[0]
    requires UserPageAdded(TakeZeroed(m), s, root, m.free[0], u, d)
    ensures UserPageAdded(m, s, root, m.free[0], u, d)
  {
    var t := m.free[0];
    assert TakeZeroed(m).role[u := Pud(root, 0)][d := Pmd(u, 0)][t := Block(d, 2)]
        == m.role[u := Pud(root, 0)][d := Pmd(u, 0)][t := Block(d, 2)];
  }

  // Which pages belong to which process

  ghost predicate Owns(role: seq<Role>, g: Pages) {
    && Distinct(g) && g.stack < |role| && g.pgd < |role| && g.user < |role| && g.pud < |role| && g.pmd < |role|
    && role[g.stack] == Held && role[g.pgd] == Pgd && role[g.user] == Block(g.pmd, 2)
    && role[g.pud] == Pud(g.pgd, 0) && role[g.pmd] == Pmd(g.pud, 0)
  }

  /** The heap is what the kernel image and the file tables leave; its free pages are the kernel's free pages. */
  ghost predicate HeapRoles(y: Sys)
    requires Shape(y.m)
  {
    && (forall p :: p in y.heap ==> p < NPAGES && y.m.role[p] != Reserved)
    && (forall p :: 0 <= p < NPAGES && p !in y.heap ==> y.m.role[p] in {Reserved, Held})
    && (forall p: nat :: p in y.k.free <==> p < NPAGES && y.m.role[p] == Free)
  }

  /** A slot with pages. In reachable states those are the slots that are not PROC_UNUSED, idle apart. */
  ghost predicate InUse(k: Kernel, i: nat)
    requires Slots(k)
  {
    0 < i < NUM_PROC && k.procs[i].pages.Pages?
  }

  ghost predicate AllOwn(y: Sys)
    requires Slots(y.k)
  {
    forall i: nat :: InUse(y.k, i) ==> Owns(y.m.role, y.k.procs[i].pages) && Mapped(y.m.pages, y.k.procs[i].pages)
  }

  /** The descriptors on the way to the user page let user code use it. */
  ghost predicate Mapped(pages: seq<Page>, g: Pages) {
    g.Pages? && UserPath(pages, g.pgd, g.pud, g.pmd, g.user)
  }

  /** Scheduler, memory and page ownership agree. */
  ghost predicate Coupled(y: Sys) {
    && Slots(y.k) && I.Inv(y.k) && Inv(y.m) && R.PagesOk(y.k, y.heap) && HeapRoles(y) && AllOwn(y)
  }

  /** The pages of a map are exactly the four its process owns. */
  ghost predicate TreeIs(role: seq<Role>, g: Pages) {
    g.Pages? && forall p :: 0 <= p < |role| ==> (InTree(role, g.pgd, p) <==> p in {g.pgd, g.pud, g.pmd, g.user})
  }

  lemma OwnerOf(y: Sys, p: nat) returns (j: nat)
    requires Coupled(y) && p < NPAGES && IsLinked(y.m.role[p])
    ensures InUse(y.k, j) && p in PageSet(y.k.procs[j].pages) && Owns(y.m.role, y.k.procs[j].pages)
  {
    hide FreeList, Children, Parents, I.Inv;
    SlotsOf(y.k);
    OwnerSlot(y.k, y.heap, p);
    j :| 0 <= j < NUM_PROC && p in PageSet(y.k.procs[j].pages);
    SlotWithPages(y.k, j);
  }

  lemma OwnerSlot(k: Kernel, heap: set<nat>, p: nat)
    requires I.Inv(k) && R.PagesOk(k, heap) && p in heap && p !in k.free
    ensures exists j :: 0 <= j < NUM_PROC && p in PageSet(k.procs[j].pages)
  {
    var own := R.Owned(k);
    var j :| 0 <= j < |own| && p in own[j];
    assert p in PageSet(k.procs[j].pages);
  }

  lemma SlotWithPages(k: Kernel, j: nat)
    requires I.Inv(k) && j < NUM_PROC
    ensures InUse(k, j) <==> k.procs[j].pages.Pages?
    ensures InUse(k, j) <==> j != 0 && k.procs[j].state != Unused
  {
    hide I.Located, I.NoLostWakeup, I.Waits;
  }

  lemma DifferentOwners(k: Kernel, heap: set<nat>, i: nat, j: nat, p: nat)
    requires Slots(k) && R.PagesOk(k, heap) && i < NUM_PROC && j < NUM_PROC
    requires p in PageSet(k.procs[i].pages) && p in PageSet(k.procs[j].pages)
    ensures i == j
  {
    var own := R.Owned(k);
    assert p in own[i] && p in own[j];
  }

  lemma OwnTree(y: Sys, i: nat)
    requires Coupled(y) && InUse(y.k, i)
    ensures Owns(y.m.role, y.k.procs[i].pages) && TreeIs(y.m.role, y.k.procs[i].pages)
  {
    hide Coupled, Distinct, InTree;
    OwnsAt(y, i);
    var role, g := y.m.role, y.k.procs[i].pages;
    forall p | 0 <= p < NPAGES ensures InTree(role, g.pgd, p) <==> p in {g.pgd, g.pud, g.pmd, g.user} {
      TreePage(y, i, p);
    }
  }

  lemma OwnsAt(y: Sys, i: nat)
    requires Coupled(y) && InUse(y.k, i)
    ensures Slots(y.k) && Shape(y.m) && Owns(y.m.role, y.k.procs[i].pages) && Mapped(y.m.pages, y.k.procs[i].pages)
  {
    hide FreeList, Children, Parents, I.Inv, R.PagesOk, HeapRoles, Owns, Mapped;
  }

  lemma TreePage(y: Sys, i: nat, p: nat)
    requires Coupled(y) && InUse(y.k, i) && p < NPAGES
    ensures var g := y.k.procs[i].pages;
            g.Pages? && (InTree(y.m.role, g.pgd, p) <==> p in {g.pgd, g.pud, g.pmd, g.user})
  {
    hide Coupled;
    OwnsAt(y, i);
    var role, g := y.m.role, y.k.procs[i].pages;
    if PudOf(role, g.pgd, p) {
      OwnPud(y, i, p);
    } else if role[p].Pmd? && PudOf(role, g.pgd, role[p].parent) {
      OwnPud(y, i, role[p].parent);
      OwnPmd(y, i, p);
    } else if role[p].Block? && PmdOf(role, g.pgd, role[p].parent) {
      OwnPud(y, i, role[role[p].parent].parent);
      OwnPmd(y, i, role[p].parent);
      OwnUser(y, i, p);
    }
  }

  lemma SlotsOf(k: Kernel)
    requires I.Inv(k)
    ensures Slots(k)
  {
  }

  lemma OwnPud(y: Sys, i: nat, p: nat)
    requires Coupled(y) && InUse(y.k, i) && p < NPAGES && PudOf(y.m.role, y.k.procs[i].pages.pgd, p)
    ensures p == y.k.procs[i].pages.pud
  {
    hide FreeList, Children, Parents, I.Core, I.OneRunning, I.Sleepers, R.PagesOk, HeapRoles;
    var j := OwnerOf(y, p);
    SlotsOf(y.k);
    assert Owns(y.m.role, y.k.procs[i].pages);
    DifferentOwners(y.k, y.heap, i, j, y.k.procs[i].pages.pgd);
  }

  lemma OwnPmd(y: Sys, i: nat, p: nat)
    requires Coupled(y) && InUse(y.k, i) && p < NPAGES && y.m.role[p].Pmd?
        && y.m.role[p].parent == y.k.procs[i].pages.pud
    ensures p == y.k.procs[i].pages.pmd
  {
    hide FreeList, Children, Parents, I.Core, I.OneRunning, I.Sleepers, R.PagesOk, HeapRoles;
    var j := OwnerOf(y, p);
    SlotsOf(y.k);
    assert Owns(y.m.role, y.k.procs[i].pages);
    DifferentOwners(y.k, y.heap, i, j, y.k.procs[i].pages.pud);
  }

  lemma OwnUser(y: Sys, i: nat, p: nat)
    requires Coupled(y) && InUse(y.k, i) && p < NPAGES && y.m.role[p].Block?
        && y.m.role[p].parent == y.k.procs[i].pages.pmd
    ensures p == y.k.procs[i].pages.user
  {
    hide FreeList, Children, Parents, I.Core, I.OneRunning, I.Sleepers, R.PagesOk, HeapRoles;
    var j := OwnerOf(y, p);
    SlotsOf(y.k);
    assert Owns(y.m.role, y.k.procs[i].pages);
    DifferentOwners(y.k, y.heap, i, j, y.k.procs[i].pages.pmd);
  }

  /**
   The translation of every process: addresses in the 2 MB block at 0x400000 go to its own user page,
   where user code may read, write and execute, and no other address is mapped.
   */
  lemma UserWalk(y: Sys, i: nat, va: nat)
    requires Coupled(y) && InUse(y.k, i)
    ensures var g := y.k.procs[i].pages;
            && Owns(y.m.role, g)
            && UserAccess(y.m.pages, g.pgd, va) == Walk(y.m.pages, g.pgd, va) ==
               if BlockOf(va) == BlockOf(USER_VA) then Some(g.user * PAGE_SIZE + va % PAGE_SIZE) else None
  {
    hide FreeList, Children, Parents, I.Inv, R.PagesOk, HeapRoles, AllOwn, Walk, UserAccess, BlockOf, Owns, TreeIs;
    OwnTree(y, i);
    SlotsOf(y.k);
    OwnsAt(y, i);
    OwnWalk(y.m, y.k.procs[i].pages, va);
    OwnAccess(y.m, y.k.procs[i].pages, va);
  }

  lemma OwnAccess(m: Mem, g: Pages, va: nat)
    requires Inv(m) && Owns(m.role, g) && TreeIs(m.role, g) && Mapped(m.pages, g)
    ensures UserAccess(m.pages, g.pgd, va) ==
            if BlockOf(va) == BlockOf(USER_VA) then Some(g.user * PAGE_SIZE + va % PAGE_SIZE) else None
  {
    hide FreeList, Children, Parents, Walk, UserAccess, L0, L1, L2, BlockOf, UserPath;
    OwnWalk(m, g, va);
    AccessIsWalk(m.pages, g.pgd, va);
    if BlockOf(va) == BlockOf(USER_VA) {
      UserPathAccess(m.pages, g.pgd, g.pud, g.pmd, g.user, va);
    }
  }

  lemma OwnWalk(m: Mem, g: Pages, va: nat)
    requires Inv(m) && Owns(m.role, g) && TreeIs(m.role, g)
    ensures Walk(m.pages, g.pgd, va) ==
            if BlockOf(va) == BlockOf(USER_VA) then Some(g.user * PAGE_SIZE + va % PAGE_SIZE) else None
  {
    hide FreeList, Children, Parents, Walk, L0, L1, L2, BlockOf;
    WalkIsBlockFrame(m, g.pgd, va);
    UserIndices();
    BlockIndices(va, USER_VA);
    OwnPath(m, g);
    if BlockFrame(m.pages, g.pgd, va).Some? {
      LeafIs(m, g.pgd, va);
      assert InTree(m.role, g.pgd, BlockFrame(m.pages, g.pgd, va).value);
    }
  }

  lemma OwnPath(m: Mem, g: Pages)
    requires Inv(m) && Owns(m.role, g)
    ensures Next(m.pages, g.pgd, 0) == Some(g.pud) && Next(m.pages, g.pud, 0) == Some(g.pmd)
        && Next(m.pages, g.pmd, 2) == Some(g.user)
  {
    hide FreeList, Children, PdeAddr, PteAddr;
    assert ParentOk(m, g.pud) && ParentOk(m, g.pmd) && ParentOk(m, g.user);
  }

  // fork

  /** The pages fork takes, in the order it takes them. */
  ghost function NextPages(m: Mem): Pages
    requires |m.free| >= 5
  {
    Pages(m.free[0], m.free[1], m.free[2], m.free[3], m.free[4])
  }

  predicate InMemory(g: Pages) {
    g.Pages? && g.stack < NPAGES && g.pgd < NPAGES && g.user < NPAGES && g.pud < NPAGES && g.pmd < NPAGES
  }

  /** Five different pages, none of them in use. */
  ghost predicate AllFree(m: Mem, g: Pages) {
    && Shape(m) && Distinct(g) && InMemory(g)
    && m.role[g.stack] == Free && m.role[g.pgd] == Free && m.role[g.user] == Free && m.role[g.pud] == Free
    && m.role[g.pmd] == Free
  }

  lemma NextPagesFree(m: Mem)
    requires FreeList(m) && |m.free| >= 5
    ensures AllFree(m, NextPages(m))
  {
    hide FreeLinks;
    assert m.role[m.free[0]] == Free && m.role[m.free[1]] == Free && m.role[m.free[2]] == Free
        && m.role[m.free[3]] == Free && m.role[m.free[4]] == Free;
  }

  ghost function RolesWith(role: seq<Role>, g: Pages): seq<Role>
    requires Distinct(g) && g.stack < |role| && g.pgd < |role| && g.user < |role| && g.pud < |role| && g.pmd < |role|
  {
    role[g.stack := Held][g.pgd := Pgd][g.pud := Pud(g.pgd, 0)][g.pmd := Pmd(g.pud, 0)][g.user := Block(g.pmd, 2)]
  }

  /** alloc_new_process: the kernel stack and the root of the new map. */
  ghost function AllocProcess(m: Mem, trapReturn: Word): Mem
    requires Inv(m) && |m.free| >= 2
  {
    WithPageInv(m, FreshStack(trapReturn), Held);
    WithPage(WithPage(m, FreshStack(trapReturn), Held), Zeros(), Pgd)
  }

  lemma AllocProcessIs(m: Mem, trapReturn: Word)
    requires Inv(m) && |m.free| >= 2
    ensures var s, stack, root := AllocProcess(m, trapReturn), m.free[0], m.free[1];
            && Inv(s) && s.free == m.free[2..] && FreshRoot(s, root) && stack < NPAGES && stack != root
            && m.role[stack] == Free && m.role[root] == Free
            && s.role == m.role[stack := Held][root := Pgd]
            && s.pages == m.pages[stack := FreshStack(trapReturn)][root := Zeros()]
  {
    TwoFree(m);
    hide FreeList, Children, Parents, FreshStack;
    WithPageInv(m, FreshStack(trapReturn), Held);
    WithPageInv(WithPage(m, FreshStack(trapReturn), Held), Zeros(), Pgd);
  }

  lemma TwoFree(m: Mem)
    requires FreeList(m) && |m.free| >= 2
    ensures m.free[0] != m.free[1]
    ensures m.free[0] < NPAGES && m.role[m.free[0]] == Free && m.free[1] < NPAGES && m.role[m.free[1]] == Free
  {
    hide FreeLinks;
  }

  /** A process can be allocated; with five pages it can be forked. */
  ghost predicate CanAlloc(m: Mem, parent: Pages) {
    Inv(m) && |m.free| >= 2 && Owns(m.role, parent) && TreeIs(m.role, parent)
  }

  ghost predicate CanFork(m: Mem, parent: Pages) {
    CanAlloc(m, parent) && |m.free| >= 5
  }

  lemma OwnBlock(m: Mem, g: Pages)
    requires Inv(m) && Owns(m.role, g)
    ensures PmdFor(m, g.pgd, USER_VA) == Some(g.pmd) && BlockFrame(m.pages, g.pgd, USER_VA) == Some(g.user)
    ensures Walk(m.pages, g.pgd, USER_VA).Some?
  {
    hide FreeList, Children, Parents, Walk, L0, L1, L2;
    OwnPath(m, g);
    UserIndices();
    WalkIsBlockFrame(m, g.pgd, USER_VA);
  }

  lemma NotFreePage(role: seq<Role>, g: Pages, p: nat)
    requires Owns(role, g) && p < |role| && role[p] == Free
    ensures p !in PageSet(g) && Owns(role[p := Held], g) && Owns(role[p := Pgd], g)
  {
  }

  lemma SourceMapped(m: Mem, parent: Pages, trapReturn: Word)
    requires CanAlloc(m, parent)
    ensures var s := AllocProcess(m, trapReturn);
            && Inv(s) && Owns(s.role, parent) && s.pages[parent.user] == m.pages[parent.user]
            && s.pages[parent.stack] == m.pages[parent.stack]
  {
    AllocProcessIs(m, trapReturn);
    hide Inv, FreshStack, AllocProcess, TreeIs;
    NotFreePage(m.role, parent, m.free[0]);
    NotFreePage(m.role[m.free[0] := Held], parent, m.free[1]);
  }

  /** copy_uvm gave root the next three pages: the user page, a copy of the one src maps, and its tables. */
  ghost predicate UserPageCopied(s: Mem, t: Mem, root: nat, src: nat) {
    && Shape(s) && |s.free| >= 3 && Inv(t) && t.free == s.free[3..]
    && UserPageAdded(s, t, root, s.free[0], s.free[1], s.free[2])
    && var b := BlockFrame(s.pages, src, USER_VA);
       b.Some? && b.value < NPAGES && t.pages[s.free[0]] == s.pages[b.value]
  }

  /** copy_uvm into a new map works when five pages are left; only the pages it took and the root change. */
  lemma CopyIntoFreshRoot(s: Mem, root: nat, src: nat)
    requires Inv(s) && FreshRoot(s, root) && |s.free| >= 3 && src < NPAGES && root != src && s.role[src].Pgd?
    requires PmdFor(s, src, USER_VA).Some? && Walk(s.pages, src, USER_VA).Some?
    ensures CanCopy(s, root, src)
    ensures var (ok, t) := CopyUvm(s, root, src, PAGE_WORDS); ok && UserPageCopied(s, t, root, src)
  {
    hide FreeList, Children, Parents, CopyUvm, Walk, BlockFrame, AfterFree, PmdFor, UserPageAdded, FreshRoot;
    hide WithUserPage, EnoughPages, MissingTables, CanCopy;
    FreshRootEmpty(s, root, USER_VA);
    CanCopyFresh(s, root, src);
    UserPageInFreshRoot(s, root);
    CopyUvmOutcome(s, root, src, PAGE_WORDS);
    CopyAdds(s, root, src);
  }

  lemma CanCopyFresh(s: Mem, root: nat, src: nat)
    requires Inv(s) && FreshRoot(s, root) && src < NPAGES && root != src && s.role[src].Pgd?
    requires Walk(s.pages, src, USER_VA).Some?
    ensures CanCopy(s, root, src)
  {
    hide FreeList, Children, Parents, Walk;
    FreshRootEmpty(s, root, USER_VA);
  }

  lemma CopyAdds(s: Mem, root: nat, src: nat)
    requires CanCopy(s, root, src) && EnoughPages(s, root) && |s.free| >= 3 && PmdFor(s, src, USER_VA).Some?
    requires UserPageAdded(s, WithUserPage(s, root), root, s.free[0], s.free[1], s.free[2])
    ensures UserPageAdded(s, CopyUvm(s, root, src, PAGE_WORDS).1, root, s.free[0], s.free[1], s.free[2])
  {
    ApartFromFree(s, root);
    SourcePage(s, root, src);
    hide FreeList, Children, Parents, WithUserPage, EnoughPages, Walk, BlockFrame, PmdFor, UserPageAdded, Copied;
    var b := BlockFrame(s.pages, src, USER_VA).value;
    CopiedStillAdded(s, WithUserPage(s, root), root, s.free[0], s.free[1], s.free[2], b, PAGE_WORDS);
  }

  lemma CopiedStillAdded(m: Mem, s: Mem, root: nat, t: nat, u: nat, d: nat, from: nat, n: nat)
    requires UserPageAdded(m, s, root, t, u, d) && t !in {root, u, d} && from < NPAGES && n <= PAGE_WORDS
    ensures UserPageAdded(m, Copied(s, t, from, n), root, t, u, d)
  {
    hide Entry;
  }

  lemma ApartFromFree(s: Mem, root: nat)
    requires FreeList(s) && |s.free| >= 3 && root < NPAGES && s.role[root] != Free
    ensures s.free[0] !in {root, s.free[1], s.free[2]}
  {
    hide FreeLinks;
    assert s.role[s.free[0]] == Free;
  }

  /** After alloc_new_process and copy_uvm. */
  ghost function ForkedMap(m: Mem, parent: Pages, trapReturn: Word): Mem
    requires CanFork(m, parent)
  {
    ForkReady(m, parent, trapReturn);
    CopyUvm(AllocProcess(m, trapReturn), NextPages(m).pgd, parent.pgd, PAGE_WORDS).1
  }

  /** After alloc_new_process the copy can start; it has enough pages when three are left. */
  lemma ForkReady(m: Mem, parent: Pages, trapReturn: Word)
    requires CanAlloc(m, parent)
    ensures var s, root := AllocProcess(m, trapReturn), m.free[1];
            && Inv(s) && FreshRoot(s, root) && |s.free| == |m.free| - 2 && parent.pgd < NPAGES && root != parent.pgd
            && s.role[parent.pgd].Pgd?
            && PmdFor(s, parent.pgd, USER_VA).Some? && Walk(s.pages, parent.pgd, USER_VA).Some?
            && CanCopy(s, root, parent.pgd) && BlockFrame(s.pages, parent.pgd, USER_VA) == Some(parent.user)
            && (EnoughPages(s, root) <==> |m.free| >= 5)
  {
    SourceMapped(m, parent, trapReturn);
    AllocProcessIs(m, trapReturn);
    hide FreeList, Children, Parents, AllocProcess, TreeIs, Walk, FreshStack, FreshRoot, PmdFor, BlockFrame, CanCopy,
         MissingTables;
    var s, root := AllocProcess(m, trapReturn), m.free[1];
    OwnBlock(s, parent);
    assert root != parent.pgd;
    CanCopyFresh(s, root, parent.pgd);
    FreshRootEmpty(s, root, USER_VA);
  }

  /** Memory s came from m by giving the free pages g to a child of the process with pages parent. */
  ghost predicate MapForked(m: Mem, s: Mem, parent: Pages, g: Pages, trapReturn: Word)
    requires Owns(m.role, parent) && Shape(m) && Distinct(g) && InMemory(g)
  {
    && Shape(s) && s.role == RolesWith(m.role, g)
    && s.pages[g.user] == m.pages[parent.user] && s.pages[g.stack] == FreshStack(trapReturn)
    && UserPath(s.pages, g.pgd, g.pud, g.pmd, g.user)
    && forall q :: 0 <= q < NPAGES && q !in PageSet(g) ==> s.pages[q] == m.pages[q]
  }

  lemma ForkedMapIs(m: Mem, parent: Pages, trapReturn: Word)
    requires CanFork(m, parent)
    ensures var s, g := ForkedMap(m, parent, trapReturn), NextPages(m);
            && Distinct(g) && InMemory(g)
            && Inv(s) && s.free == m.free[5..] && MapForked(m, s, parent, g, trapReturn)
  {
    NextPagesFree(m);
    ForkReady(m, parent, trapReturn);
    SourceMapped(m, parent, trapReturn);
    AllocProcessIs(m, trapReturn);
    hide FreeList, Children, Parents, AllocProcess, TreeIs, Walk, FreshStack, FreshRoot, PmdFor, BlockFrame, CopyUvm,
         MapForked, UserPageAdded;
    var s, g := AllocProcess(m, trapReturn), NextPages(m);
    CopyIntoFreshRoot(s, g.pgd, parent.pgd);
    CombineFork(m, s, ForkedMap(m, parent, trapReturn), parent, g, trapReturn);
  }

  lemma CombineFork(m: Mem, s: Mem, t: Mem, parent: Pages, g: Pages, trapReturn: Word)
    requires Owns(m.role, parent) && Shape(m) && Distinct(g) && InMemory(g)
    requires s.role == m.role[g.stack := Held][g.pgd := Pgd]
    requires s.pages == m.pages[g.stack := FreshStack(trapReturn)][g.pgd := Zeros()]
    requires UserPageAdded(s, t, g.pgd, g.user, g.pud, g.pmd) && t.pages[g.user] == m.pages[parent.user]
    ensures MapForked(m, t, parent, g, trapReturn)
  {
    hide FreshStack, Owns;
  }

  /** The child's frame is the parent's with x0 = 0; the parent's own x0 becomes the child's pid. */
  ghost function WithFrames(m: Mem, parent: nat, child: nat, pid: Word): Mem
    requires Shape(m) && parent < NPAGES && child < NPAGES
  {
    var frame := FrameOf(m.pages[parent]);
    m.(pages := m.pages[child := SetFrame(m.pages[child], frame[X0 := 0])][parent := SetFrame(m.pages[parent],
        frame[X0 := pid])])
  }

  lemma WithFramesInv(m: Mem, parent: nat, child: nat, pid: Word)
    requires Inv(m) && parent < NPAGES && child < NPAGES && m.role[parent] == Held && m.role[child] == Held
    ensures Inv(WithFrames(m, parent, child, pid))
  {
    hide FreeList, Children, Parents, SetFrame, FrameOf;
    var frame := FrameOf(m.pages[parent]);
    WriteData(m, child, SetFrame(m.pages[child], frame[X0 := 0]));
    WriteData(m.(pages := m.pages[child := SetFrame(m.pages[child], frame[X0 := 0])]), parent,
        SetFrame(m.pages[parent], frame[X0 := pid]));
  }

  ghost function ForkMem(m: Mem, parent: Pages, pid: Word, trapReturn: Word): Mem
    requires CanFork(m, parent)
  {
    ForkedMapIs(m, parent, trapReturn);
    WithFrames(ForkedMap(m, parent, trapReturn), parent.stack, NextPages(m).stack, pid)
  }

  /**
   What fork does to memory: the five pages g leave the free list and become the child's; the child's
   user page is a copy of the parent's, its trap frame is the parent's except for x0, and nothing but
   the pages g and the parent's x0 changes.
   */
  ghost predicate Forked(m: Mem, s: Mem, parent: Pages, g: Pages, pid: Word, trapReturn: Word) {
    && Shape(s) && AllFree(m, g) && Owns(m.role, parent)
    && s.role == RolesWith(m.role, g)
    && s.pages[g.user] == m.pages[parent.user]
    && s.pages[g.stack] == SetFrame(FreshStack(trapReturn), FrameOf(m.pages[parent.stack])[X0 := 0])
    && s.pages[parent.stack] == SetFrame(m.pages[parent.stack], FrameOf(m.pages[parent.stack])[X0 := pid])
    && UserPath(s.pages, g.pgd, g.pud, g.pmd, g.user)
    && forall q :: 0 <= q < NPAGES && q !in PageSet(g) && q != parent.stack ==> s.pages[q] == m.pages[q]
  }

  lemma ForkMemIs(m: Mem, parent: Pages, pid: Word, trapReturn: Word)
    requires CanFork(m, parent)
    ensures var s := ForkMem(m, parent, pid, trapReturn);
            Inv(s) && s.free == m.free[5..] && Forked(m, s, parent, NextPages(m), pid, trapReturn)
  {
    NextPagesFree(m);
    ForkedMapIs(m, parent, trapReturn);
    hide FreeList, Children, Parents, FreshStack, FrameOf, SetFrame, ForkedMap, TreeIs, MapForked;
    var s, g := ForkedMap(m, parent, trapReturn), NextPages(m);
    ForkFrames(m, s, parent, g, pid, trapReturn);
    WithFramesInv(s, parent.stack, g.stack, pid);
  }

  lemma ForkFrames(m: Mem, s: Mem, parent: Pages, g: Pages, pid: Word, trapReturn: Word)
    requires Owns(m.role, parent) && AllFree(m, g)
    requires MapForked(m, s, parent, g, trapReturn)
    ensures Forked(m, WithFrames(s, parent.stack, g.stack, pid), parent, g, pid, trapReturn)
    ensures s.role[parent.stack] == Held && s.role[g.stack] == Held
  {
    hide FreshStack, FrameOf, SetFrame;
    assert parent.stack !in PageSet(g) && g.user != g.stack;
  }

  // wait

  /** Reaping: kfree of the stack, then free_vm. */
  ghost function ReapMem(m: Mem, g: Pages): Mem
    requires Inv(m) && Owns(m.role, g)
  {
    HeldPush(m, g.stack);
    FreeVm(Push(m, g.stack), g.pgd)
  }

  ghost function RolesWithout(role: seq<Role>, g: Pages): seq<Role> {
    seq(|role|, p requires 0 <= p < |role| => if p in PageSet(g) then Free else role[p])
  }

  /** Reaping puts exactly the five pages of the process on the free list and leaves every other page in use alone. */
  lemma ReapMemIs(m: Mem, g: Pages)
    requires Inv(m) && Owns(m.role, g) && TreeIs(m.role, g)
    ensures var s := ReapMem(m, g);
            && Inv(s) && s.role == RolesWithout(m.role, g)
            && forall q :: 0 <= q < NPAGES && s.role[q] != Free ==> s.pages[q] == m.pages[q]
  {
    assert m.free != [] ==> m.free[0] < NPAGES;
    hide FreeList, Children, Parents, L0, L1, L2, FreeVm, PudOf, PmdOf, TreeIs, AfterFree, RolesWithout;
    HeldPush(m, g.stack);
    var m1 := Push(m, g.stack);
    FreeVmDone(m1, g.pgd);
    ReapRoles(m.role, g);
    var s := ReapMem(m, g);
    forall q | 0 <= q < NPAGES && s.role[q] != Free ensures s.pages[q] == m.pages[q] {
      TreeWithoutStack(m.role, g, q);
      NotReaped(m.role, g, q);
    }
  }

  lemma NotReaped(role: seq<Role>, g: Pages, q: nat)
    requires Owns(role, g) && q < |role| && RolesWithout(role, g)[q] != Free
    ensures q !in PageSet(g) && q != g.stack
  {
  }

  lemma ReapRoles(role: seq<Role>, g: Pages)
    requires |role| == NPAGES && Owns(role, g) && TreeIs(role, g)
    ensures AfterFree(role[g.stack := Free], g.pgd) == RolesWithout(role, g)
  {
    hide AfterFree, TreeIs;
    AfterFreeLength(role[g.stack := Free], g.pgd);
    forall q | 0 <= q < NPAGES ensures AfterFree(role[g.stack := Free], g.pgd)[q] == RolesWithout(role, g)[q] {
      TreeWithoutStack(role, g, q);
    }
  }

  lemma TreeWithoutStack(role: seq<Role>, g: Pages, q: nat)
    requires |role| == NPAGES && Owns(role, g) && TreeIs(role, g) && q < NPAGES
    ensures var role1 := role[g.stack := Free];
            && AfterFree(role1, g.pgd)[q] == (if q in PageSet(g) then Free else role[q])
            && (q !in PageSet(g) ==> !PudOf(role1, g.pgd, q) && !PmdOf(role1, g.pgd, q))
  {
    UserIndices();
    hide L0, L1, L2;
    assert InTree(role, g.pgd, q) <==> q in {g.pgd, g.pud, g.pmd, g.user};
  }
}
