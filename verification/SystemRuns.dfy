/** Runs of the kernel with its memory: page accounting, isolation between processes, fork's copy. */
module SystemRuns {
  import opened Words
  import opened Paging
  import opened Walks
  import opened Access
  import opened Teardown
  import opened UserMaps
  import opened Machine
  import opened System
  import I = MachineInv
  import R = MachineRuns
  import L = MachineLaws

  /**
   Do: an event of the scheduler, with the result system_call stores in x0 of the trap frame if a call
   returns by it. Enter: a trap saves the current process's registers. Load: the success path of exec.
   Scratch: what kernel code leaves on the running process's stack below the trap frame.
   */
  datatype Action =
    | Do(event: Event, value: Word)
    | ForkCall(trapReturn: Word)
    | Enter(frame: TrapFrame)
    | Scratch(words: seq<Word>)
    | StoreWord(va: nat, w: Word)
    | Load(image: Page)

  ghost predicate UserRuns(k: Kernel) {
    Slots(k) && Current(k).call.User? && k.current != 0
  }

  ghost predicate CanDo(y: Sys, e: Event) { Slots(y.k) && !e.Fork? && Enabled(y.k, e) }

  /**
   By the event a system call of the running process returns. Stay is a call that neither blocks nor
   moves a process.
   */
  ghost predicate Returns(k: Kernel, e: Event)
    requires Enabled(k, e)
  {
    !e.Timer? && !e.Key? && !e.Exit? && !e.Fork? && Step(k, e).current == k.current
  }

  /** wait and sys_sleep return 0. */
  ghost predicate ReturnsZero(k: Kernel, e: Event)
    requires Slots(k)
  {
    e.Wait? || e.SleepTicks? || (e.Resume? && !Current(k).call.InReadKey?)
  }

  ghost predicate CanStep(y: Sys, a: Action) {
    && Slots(y.k)
    && match a
       case Do(e, value) => CanDo(y, e) && (Returns(y.k, e) && ReturnsZero(y.k, e) ==> value == 0)
       case Scratch(words) => y.k.current != 0 && |words| == FRAME
       case ForkCall(_) => |y.m.free| >= 5 && Enabled(y.k, Fork(NextPages(y.m)))
       case StoreWord(va, _) => UserRuns(y.k) && Current(y.k).pages.Pages?
           && UserAccess(y.m.pages, Current(y.k).pages.pgd, va).Some?
       case _ => UserRuns(y.k)
  }

  lemma CurrentOwns(y: Sys)
    requires Coupled(y) && y.k.current != 0
    ensures Slots(y.k) && InUse(y.k, y.k.current) && Owns(y.m.role, Current(y.k).pages)
        && TreeIs(y.m.role, Current(y.k).pages)
    ensures Mapped(y.m.pages, Current(y.k).pages)
    ensures |y.m.free| >= 5 ==> CanFork(y.m, Current(y.k).pages)
  {
    hide FreeList, Children, Parents, R.PagesOk, HeapRoles, Owns, TreeIs, Mapped, I.Located, I.Pids, I.Waits,
         I.NoLostWakeup;
    SlotWithPages(y.k, y.k.current);
    OwnTree(y, y.k.current);
    OwnsAt(y, y.k.current);
  }

  lemma ReapedOwns(y: Sys, e: Event)
    requires Coupled(y) && Slots(y.k) && L.Reaped(y.k, e).Slot?
    ensures var i := L.Reaped(y.k, e).i;
            && i < NUM_PROC && InUse(y.k, i) && y.k.procs[i].state == Killed
            && Owns(y.m.role, y.k.procs[i].pages) && TreeIs(y.m.role, y.k.procs[i].pages)
  {
    hide FreeList, Children, Parents, R.PagesOk, HeapRoles, Owns, TreeIs, I.Pids, I.Waits, I.NoLostWakeup;
    var i := L.Reaped(y.k, e).i;
    assert i in y.k.killed;
    SlotWithPages(y.k, i);
    OwnTree(y, i);
  }

  ghost function SetPage(m: Mem, p: nat, contents: Page): Mem
    requires p < |m.pages|
  {
    m.(pages := m.pages[p := contents])
  }

  /** An event other than fork: the scheduler moves, and a round of wait that finds its process reaps it. */
  ghost function DoEvent(y: Sys, e: Event): Sys
    requires Coupled(y) && CanDo(y, e)
  {
    hide FreeList, Children, Parents, R.PagesOk, HeapRoles, Owns, TreeIs, I.Core;
    var r := L.Reaped(y.k, e);
    Sys(Step(y.k, e),
        if r.Slot? then ReapedOwns(y, e); ReapMem(y.m, y.k.procs[r.i].pages) else y.m,
        y.heap)
  }

  ghost function DoFork(y: Sys, trapReturn: Word): Sys
    requires Coupled(y) && CanStep(y, ForkCall(trapReturn))
  {
    hide FreeList, Children, Parents, R.PagesOk, HeapRoles, Owns, TreeIs, I.Core;
    CurrentOwns(y);
    Sys(Step(y.k, Fork(NextPages(y.m))), ForkMem(y.m, Current(y.k).pages, Pid(y.k), trapReturn), y.heap)
  }

  /** A trap from user code saves the registers in the trap frame of the running process. */
  ghost function SaveFrame(m: Mem, g: Pages, frame: TrapFrame): Mem
    requires Shape(m) && Owns(m.role, g)
  {
    SetPage(m, g.stack, SetFrame(m.pages[g.stack], frame))
  }

  /** system_call stores the result of a call. */
  ghost function StoreResult(m: Mem, g: Pages, value: Word): Mem
    requires Shape(m) && Owns(m.role, g)
  {
    SaveFrame(m, g, FrameOf(m.pages[g.stack])[X0 := value])
  }

  /** Kernel code uses the stack below the trap frame. */
  ghost function ScratchStack(m: Mem, g: Pages, words: seq<Word>): Mem
    requires Shape(m) && Owns(m.role, g) && |words| == FRAME
  {
    SetPage(m, g.stack, words + FrameOf(m.pages[g.stack]))
  }

  /** A store of user code, at the physical address the table walk gives if user code may write there. */
  ghost function UserStore(m: Mem, g: Pages, va: nat, w: Word): Mem
    requires Inv(m) && Owns(m.role, g) && TreeIs(m.role, g) && Mapped(m.pages, g)
    requires UserAccess(m.pages, g.pgd, va).Some?
  {
    OwnAccess(m, g, va);
    var pa := UserAccess(m.pages, g.pgd, va).value;
    StoreAddress(g.user, va);
    SetWord(m, pa / PAGE_SIZE, pa % PAGE_SIZE / 8, w)
  }

  /** exec: the user page is replaced and the trap frame starts the program anew. */
  ghost function LoadProgram(m: Mem, g: Pages, image: Page): Mem
    requires Shape(m) && Owns(m.role, g)
  {
    SetPage(SetPage(m, g.user, image), g.stack, SetFrame(m.pages[g.stack], NewFrame()))
  }

  lemma StoreAddress(t: nat, va: nat)
    ensures var pa := t * PAGE_SIZE + va % PAGE_SIZE; pa / PAGE_SIZE == t && pa % PAGE_SIZE == va % PAGE_SIZE
  {
    DivUnique(t * PAGE_SIZE + va % PAGE_SIZE, PAGE_SIZE, t, va % PAGE_SIZE);
  }

  // Every step keeps the coupling, and a process only its own actions, or its reaping, can change

  /** Process j has the same pages in both states, with the same user page and kernel stack contents. */
  ghost predicate Kept(y: Sys, y': Sys, j: nat) {
    && Slots(y.k) && Slots(y'.k) && Shape(y.m) && Shape(y'.m)
    && InUse(y.k, j) && InUse(y'.k, j) && y'.k.procs[j].pages == y.k.procs[j].pages
    && var g := y.k.procs[j].pages;
       && Owns(y.m.role, g)
       && y'.m.pages[g.user] == y.m.pages[g.user] && y'.m.pages[g.stack] == y.m.pages[g.stack]
  }

  lemma OwnRoleKept(role: seq<Role>, role': seq<Role>, g: Pages)
    requires Owns(role, g) && |role'| == |role|
    requires forall p :: 0 <= p < |role| && p in PageSet(g) ==> role'[p] == role[p]
    ensures Owns(role', g)
  {
    assert g.stack in PageSet(g) && g.pgd in PageSet(g) && g.user in PageSet(g) && g.pud in PageSet(g)
        && g.pmd in PageSet(g);
  }

  /** Two processes share no page. */
  lemma Apart(y: Sys, i: nat, j: nat, p: nat)
    requires Coupled(y) && i != j && InUse(y.k, i) && InUse(y.k, j) && p in PageSet(y.k.procs[i].pages)
    ensures p !in PageSet(y.k.procs[j].pages)
  {
    hide FreeList, Children, Parents, I.Core, I.OneRunning, I.Sleepers, R.PagesOk, HeapRoles, AllOwn;
    if p in PageSet(y.k.procs[j].pages) {
      DifferentOwners(y.k, y.heap, i, j, p);
    }
  }

  lemma OwnInHeap(y: Sys, i: nat, p: nat)
    requires Coupled(y) && InUse(y.k, i) && p in PageSet(y.k.procs[i].pages)
    ensures p in y.heap && p !in y.k.free && p < NPAGES && y.m.role[p] != Free
  {
    hide FreeList, Children, Parents, I.Core, I.OneRunning, I.Sleepers;
    var own := R.Owned(y.k);
    assert p in own[i];
  }

  lemma ReapedHeapRoles(y: Sys, i: nat, y': Sys)
    requires Coupled(y) && InUse(y.k, i) && y'.heap == y.heap
    requires Shape(y'.m) && y'.m.role == RolesWithout(y.m.role, y.k.procs[i].pages)
    requires y'.k.free == y.k.free + PageSet(y.k.procs[i].pages)
    ensures HeapRoles(y')
  {
    hide FreeList, Children, Parents, I.Core, I.OneRunning, I.Sleepers, R.PagesOk, AllOwn;
    forall p | p in PageSet(y.k.procs[i].pages) ensures p in y.heap && p < NPAGES {
      OwnInHeap(y, i, p);
    }
  }

  lemma ReapedOthers(y: Sys, i: nat, y': Sys, j: nat)
    requires Coupled(y) && InUse(y.k, i) && InUse(y.k, j) && j != i
    requires Shape(y'.m) && y'.m.role == RolesWithout(y.m.role, y.k.procs[i].pages)
    requires Slots(y'.k) && y'.k.procs[j].pages == y.k.procs[j].pages
    requires forall q :: 0 <= q < NPAGES && y'.m.role[q] != Free ==> y'.m.pages[q] == y.m.pages[q]
    ensures Kept(y, y', j) && Owns(y'.m.role, y'.k.procs[j].pages) && Mapped(y'.m.pages, y'.k.procs[j].pages)
  {
    hide FreeList, Children, Parents, I.Core, I.OneRunning, I.Sleepers, R.PagesOk, HeapRoles;
    var g := y.k.procs[j].pages;
    assert Owns(y.m.role, g);
    forall p | p in PageSet(g) ensures p !in PageSet(y.k.procs[i].pages) {
      Apart(y, j, i, p);
    }
    OwnRoleKept(y.m.role, y'.m.role, g);
  }

  /** All processes but the reaped one are kept. */
  ghost predicate KeptExcept(y: Sys, y': Sys, r: L.WhichSlot)
    requires Slots(y.k)
  {
    forall j: nat :: InUse(y.k, j) && r != L.Slot(j) ==> Kept(y, y', j)
  }

  lemma ReapStep(y: Sys, e: Event)
    requires Coupled(y) && CanDo(y, e) && L.Reaped(y.k, e).Slot?
    ensures Coupled(DoEvent(y, e)) && KeptExcept(y, DoEvent(y, e), L.Reaped(y.k, e))
  {
    hide FreeList, Children, Parents, I.Core, I.OneRunning, I.Sleepers, Owns, TreeIs, RolesWithout, L.Reaped,
         Enabled, Step, PageSet, HeapRoles, R.PagesOk, Kept;
    var i, y' := L.Reaped(y.k, e).i, DoEvent(y, e);
    ReapedOwns(y, e);
    ReapMemIs(y.m, y.k.procs[i].pages);
    L.StepMovesPages(y.k, e);
    I.StepInv(y.k, e);
    R.StepPages(y.k, e, y.heap);
    ReapedHeapRoles(y, i, y');
    forall j: nat | InUse(y.k, j) && j != i
      ensures Kept(y, y', j) && Owns(y'.m.role, y'.k.procs[j].pages) && Mapped(y'.m.pages, y'.k.procs[j].pages)
    {
      ReapedOthers(y, i, y', j);
    }
  }

  lemma OtherStep(y: Sys, e: Event)
    requires Coupled(y) && CanDo(y, e) && L.Reaped(y.k, e).NoSlot?
    ensures Coupled(DoEvent(y, e)) && KeptExcept(y, DoEvent(y, e), L.Reaped(y.k, e))
  {
    hide FreeList, Children, Parents, I.Core, I.OneRunning, I.Sleepers, Owns, L.Reaped, Enabled, Step, PageSet,
         R.PagesOk;
    L.StepMovesPages(y.k, e);
    I.StepInv(y.k, e);
    R.StepPages(y.k, e, y.heap);
  }

  // Writes of the current process to its own pages

  /** Memory m' differs from m only in the contents of the user page and stack page of g. */
  ghost predicate OnlyWrites(m: Mem, m': Mem, g: Pages) {
    && Shape(m) && Shape(m') && g.Pages? && m'.role == m.role && m'.free == m.free
    && forall q :: 0 <= q < NPAGES && q != g.user && q != g.stack ==> m'.pages[q] == m.pages[q]
  }

  lemma WritesCoupled(y: Sys, m': Mem)
    requires Coupled(y) && y.k.current != 0 && Inv(m') && OnlyWrites(y.m, m', Current(y.k).pages)
    ensures Coupled(y.(m := m'))
    ensures forall j: nat :: InUse(y.k, j) && j != y.k.current ==> Kept(y, y.(m := m'), j)
  {
    hide FreeList, Children, Parents, I.Core, I.OneRunning, I.Sleepers, TreeIs, R.PagesOk, HeapRoles, Kept, Owns,
         Mapped, AllOwn;
    HeapRolesSame(y, y.(m := m'));
    forall j: nat | InUse(y.k, j) && j != y.k.current ensures Kept(y, y.(m := m'), j) {
      WriteKeeps(y, m', j);
    }
    forall j: nat | InUse(y.k, j) ensures Owns(m'.role, y.k.procs[j].pages) && Mapped(m'.pages, y.k.procs[j].pages) {
      WriteStillMapped(y, m', j);
    }
    AllOwnIs(y.(m := m'));
  }

  /** The tables of no process are written. */
  lemma WriteStillMapped(y: Sys, m': Mem, j: nat)
    requires Coupled(y) && y.k.current != 0 && OnlyWrites(y.m, m', Current(y.k).pages) && InUse(y.k, j)
    ensures Owns(m'.role, y.k.procs[j].pages) && Mapped(m'.pages, y.k.procs[j].pages)
  {
    hide FreeList, Children, Parents, I.Inv, TreeIs, R.PagesOk, HeapRoles, Entry;
    CurrentOwns(y);
    OwnsAt(y, j);
    if j != y.k.current {
      Apart(y, y.k.current, j, Current(y.k).pages.user);
      Apart(y, y.k.current, j, Current(y.k).pages.stack);
    }
  }

  lemma WriteKeeps(y: Sys, m': Mem, j: nat)
    requires Coupled(y) && y.k.current != 0 && OnlyWrites(y.m, m', Current(y.k).pages)
    requires InUse(y.k, j) && j != y.k.current
    ensures Kept(y, y.(m := m'), j)
  {
    hide FreeList, Children, Parents, I.Inv, TreeIs, R.PagesOk, HeapRoles, Distinct;
    CurrentOwns(y);
    Apart(y, y.k.current, j, Current(y.k).pages.user);
    Apart(y, y.k.current, j, Current(y.k).pages.stack);
    assert Owns(y.m.role, y.k.procs[j].pages);
  }

  lemma HeapRolesSame(y: Sys, y': Sys)
    requires Shape(y.m) && Shape(y'.m) && HeapRoles(y) && y'.m.role == y.m.role && y'.heap == y.heap
        && y'.k.free == y.k.free
    ensures HeapRoles(y')
  {
  }

  lemma SaveFrameWrites(m: Mem, g: Pages, frame: TrapFrame)
    requires Inv(m) && Owns(m.role, g)
    ensures Inv(SaveFrame(m, g, frame)) && OnlyWrites(m, SaveFrame(m, g, frame), g)
  {
    hide FreeList, Children, Parents, SetFrame;
    WriteData(m, g.stack, SetFrame(m.pages[g.stack], frame));
  }

  /** A user store lands in the process's own user page, at the offset of the address. */
  lemma UserStoreWrites(m: Mem, g: Pages, va: nat, w: Word)
    requires Inv(m) && Owns(m.role, g) && TreeIs(m.role, g) && Mapped(m.pages, g)
    requires UserAccess(m.pages, g.pgd, va).Some?
    ensures BlockOf(va) == BlockOf(USER_VA) && UserStore(m, g, va, w) == SetWord(m, g.user, va % PAGE_SIZE / 8, w)
    ensures Inv(UserStore(m, g, va, w)) && OnlyWrites(m, UserStore(m, g, va, w), g)
  {
    hide FreeList, Children, Parents, Walk, UserAccess, BlockOf, TreeIs, Mapped;
    OwnAccess(m, g, va);
    StoreAddress(g.user, va);
    WriteData(m, g.user, m.pages[g.user][va % PAGE_SIZE / 8 := w]);
  }

  lemma LoadProgramWrites(m: Mem, g: Pages, image: Page)
    requires Inv(m) && Owns(m.role, g)
    ensures Inv(LoadProgram(m, g, image)) && OnlyWrites(m, LoadProgram(m, g, image), g)
  {
    hide FreeList, Children, Parents, SetFrame, NewFrame;
    WriteData(m, g.user, image);
    WriteData(SetPage(m, g.user, image), g.stack, SetFrame(m.pages[g.stack], NewFrame()));
  }

  lemma StoreResultWrites(m: Mem, g: Pages, value: Word)
    requires Inv(m) && Owns(m.role, g)
    ensures Inv(StoreResult(m, g, value)) && OnlyWrites(m, StoreResult(m, g, value), g)
    ensures KeepsFrameFrom(m, StoreResult(m, g, value), g, 1)
  {
    hide FreeList, Children, Parents, SetFrame, FrameOf;
    var stack := m.pages[g.stack];
    SaveFrameWrites(m, g, FrameOf(stack)[X0 := value]);
    FrameRoundTrip(stack, FrameOf(stack)[X0 := value]);
  }

  lemma ScratchWrites(m: Mem, g: Pages, words: seq<Word>)
    requires Inv(m) && Owns(m.role, g) && |words| == FRAME
    ensures Inv(ScratchStack(m, g, words)) && OnlyWrites(m, ScratchStack(m, g, words), g)
    ensures KeepsFrameFrom(m, ScratchStack(m, g, words), g, 0)
  {
    hide FreeList, Children, Parents, SetFrame;
    WriteData(m, g.stack, words + FrameOf(m.pages[g.stack]));
  }

  /** The user page stays as it is, and so does the trap frame from the given word on; word 0 is x0. */
  ghost predicate KeepsFrameFrom(m: Mem, m': Mem, g: Pages, from: nat)
    requires from <= FRAME_WORDS
  {
    && Shape(m) && Shape(m') && g.Pages? && g.user < NPAGES && g.stack < NPAGES
    && m'.pages[g.user] == m.pages[g.user] && FrameOf(m'.pages[g.stack])[from..] == FrameOf(m.pages[g.stack])[from..]
  }

  // Events

  lemma DoCoupled(y: Sys, e: Event)
    requires Coupled(y) && CanDo(y, e)
    ensures Coupled(DoEvent(y, e)) && KeptExcept(y, DoEvent(y, e), L.Reaped(y.k, e))
  {
    hide Coupled, DoEvent, L.Reaped, KeptExcept;
    if L.Reaped(y.k, e).Slot? {
      ReapStep(y, e);
    } else {
      OtherStep(y, e);
    }
  }

  /** A process whose call returns is not the idle one, and is not reaped by it. */
  lemma ReturnsUser(y: Sys, e: Event)
    requires Coupled(y) && CanDo(y, e) && Returns(y.k, e)
    ensures y.k.current != 0 && DoEvent(y, e).k.current == y.k.current
  {
    hide FreeList, Children, Parents, R.PagesOk, HeapRoles, I.Located, I.Pids, I.Waits, I.NoLostWakeup, Step, L.Reaped;
  }

  lemma NotReaped(y: Sys, e: Event)
    requires Coupled(y) && CanDo(y, e)
    ensures L.Reaped(y.k, e) != L.Slot(y.k.current)
  {
    hide FreeList, Children, Parents, R.PagesOk, HeapRoles, I.Pids, I.Waits, I.NoLostWakeup, Owns;
    if L.Reaped(y.k, e).Slot? {
      ReapedOwns(y, e);
    }
  }

  ghost function WithResult(y: Sys, value: Word): Sys
    requires Coupled(y) && y.k.current != 0
  {
    CurrentOwns(y);
    y.(m := StoreResult(y.m, Current(y.k).pages, value))
  }

  ghost function Next(y: Sys, a: Action): Sys
    requires Coupled(y) && CanStep(y, a)
  {
    hide FreeList, Children, Parents, R.PagesOk, HeapRoles, AllOwn, I.Core, I.OneRunning, I.Sleepers, DoEvent, DoFork,
         Returns, Step, Walk;
    match a
    case Do(e, value) =>
      DoCoupled(y, e);
      if Returns(y.k, e) then ReturnsUser(y, e); WithResult(DoEvent(y, e), value) else DoEvent(y, e)
    case Scratch(words) => CurrentOwns(y); y.(m := ScratchStack(y.m, Current(y.k).pages, words))
    case ForkCall(trapReturn) => DoFork(y, trapReturn)
    case Enter(frame) => CurrentOwns(y); y.(m := SaveFrame(y.m, Current(y.k).pages, frame))
    case StoreWord(va, w) => CurrentOwns(y); y.(m := UserStore(y.m, Current(y.k).pages, va, w))
    case Load(image) => CurrentOwns(y); y.(m := LoadProgram(y.m, Current(y.k).pages, image))
  }

  // fork

  ghost predicate ForkStates(y: Sys, y': Sys, g: Pages, pid: Word, trapReturn: Word) {
    && Coupled(y) && y.k.current != 0 && y'.heap == y.heap && FindUnused(y.k.procs) < NUM_PROC
    && y'.k == ForkProcess(y.k, g) && Slots(y'.k)
    && Forked(y.m, y'.m, Current(y.k).pages, g, pid, trapReturn) && Inv(y'.m) && PageSet(g) <= y.k.free
  }

  lemma ForkHeapRoles(y: Sys, y': Sys, g: Pages, pid: Word, trapReturn: Word)
    requires ForkStates(y, y', g, pid, trapReturn)
    ensures HeapRoles(y')
  {
    hide FreeList, Children, Parents, I.Inv, AllOwn, Owns, R.PagesOk, NewFrame, FreshStack, SetFrame, FrameOf;
    forall p | p in PageSet(g) ensures p in y.heap {
      FreeInHeap(y, p);
    }
  }

  lemma FreeInHeap(y: Sys, p: nat)
    requires Coupled(y) && p in y.k.free
    ensures p in y.heap
  {
    hide FreeList, Children, Parents, I.Inv, AllOwn;
  }

  lemma ForkOthers(y: Sys, y': Sys, g: Pages, pid: Word, trapReturn: Word, j: nat)
    requires ForkStates(y, y', g, pid, trapReturn) && InUse(y.k, j)
    ensures InUse(y'.k, j) && y'.k.procs[j] == y.k.procs[j] && Owns(y'.m.role, y.k.procs[j].pages)
    ensures forall p :: p in PageSet(y.k.procs[j].pages) ==> p !in PageSet(g)
  {
    hide FreeList, Children, Parents, I.Inv, R.PagesOk, NewFrame, FreshStack, SetFrame, FrameOf, HeapRoles, Owns,
         AllFree, RolesWith, PageSet, Distinct;
    NewSlot(y.k);
    assert Owns(y.m.role, y.k.procs[j].pages);
    OwnsBeside(y.m, g, y.k.procs[j].pages);
  }

  /** A process keeps its pages when free pages are given to another. */
  lemma OwnsBeside(m: Mem, g: Pages, h: Pages)
    requires AllFree(m, g) && Owns(m.role, h)
    ensures Owns(RolesWith(m.role, g), h) && forall p :: p in PageSet(h) ==> p !in PageSet(g)
  {
  }

  lemma NewSlot(k: Kernel)
    requires I.Inv(k) && FindUnused(k.procs) < NUM_PROC
    ensures k.procs[FindUnused(k.procs)] == NO_PROC && FindUnused(k.procs) != 0
  {
    I.ForkIsFresh(k);
  }

  lemma ForkKeeps(y: Sys, y': Sys, g: Pages, pid: Word, trapReturn: Word, j: nat)
    requires ForkStates(y, y', g, pid, trapReturn) && InUse(y.k, j) && j != y.k.current
    ensures Kept(y, y', j)
  {
    hide FreeList, Children, Parents, I.Inv, R.PagesOk, NewFrame, FreshStack, SetFrame, FrameOf, HeapRoles, ForkProcess;
    ForkOthers(y, y', g, pid, trapReturn, j);
    CurrentOwns(y);
    var h := y.k.procs[j].pages;
    Apart(y, j, y.k.current, h.user);
    Apart(y, j, y.k.current, h.stack);
    assert h.user in PageSet(h) && h.stack in PageSet(h);
    assert Owns(y.m.role, h);
  }

  lemma ForkChild(role: seq<Role>, g: Pages)
    requires Distinct(g) && g.stack < |role| && g.pgd < |role| && g.user < |role| && g.pud < |role| && g.pmd < |role|
    ensures Owns(RolesWith(role, g), g)
  {
  }

  lemma ForkStatesHold(y: Sys, trapReturn: Word)
    requires Coupled(y) && CanStep(y, ForkCall(trapReturn))
    ensures ForkStates(y, DoFork(y, trapReturn), NextPages(y.m), Pid(y.k), trapReturn)
  {
    hide FreeList, Children, Parents, I.Inv, AllOwn, HeapRoles, R.PagesOk, NewFrame, FreshStack, SetFrame, FrameOf,
         Forked;
    CurrentOwns(y);
    I.StepInv(y.k, Fork(NextPages(y.m)));
    L.SlotsKept(y.k, Fork(NextPages(y.m)));
    ForkMemIs(y.m, Current(y.k).pages, Pid(y.k), trapReturn);
  }

  /**
   fork: the child is a new process with a fresh pid whose user page is a copy of the parent's and
   whose trap frame is the parent's with x0 = 0; the parent's changes only in x0, which becomes the
   child's pid; every other process keeps its pages and their contents.
   */
  ghost predicate ForkOutcome(y: Sys, y': Sys, trapReturn: Word) {
    && Slots(y.k) && Slots(y'.k) && |y.m.free| >= 5 && FindUnused(y.k.procs) < NUM_PROC
    && var i, g := FindUnused(y.k.procs), NextPages(y.m);
       && InUse(y'.k, i) && !InUse(y.k, i)
       && y'.k.procs[i] == Proc(y.k.nextPid, 0, Ready, User, g)
       && Forked(y.m, y'.m, Current(y.k).pages, g, Pid(y.k), trapReturn)
       && forall j: nat :: InUse(y.k, j) && j != y.k.current ==> Kept(y, y', j)
  }

  /** The next pid as the 64-bit word fork returns. */
  ghost function Pid(k: Kernel): Word { k.nextPid % WORD_LIMIT }

  lemma ForkStep(y: Sys, trapReturn: Word)
    requires Coupled(y) && CanStep(y, ForkCall(trapReturn))
    ensures Coupled(DoFork(y, trapReturn)) && ForkOutcome(y, DoFork(y, trapReturn), trapReturn)
  {
    hide FreeList, Children, Parents, I.Core, I.OneRunning, I.Sleepers, AllOwn, HeapRoles, R.PagesOk, NewFrame,
         FreshStack, SetFrame, FrameOf, Forked, Kept, DoFork;
    ForkStatesHold(y, trapReturn);
    var y', g, pid := DoFork(y, trapReturn), NextPages(y.m), Pid(y.k);
    NewSlot(y.k);
    I.StepInv(y.k, Fork(g));
    R.StepPages(y.k, Fork(g), y.heap);
    ForkHeapRoles(y, y', g, pid, trapReturn);
    ForkOwn(y, y', g, pid, trapReturn);
  }

  lemma ForkOwn(y: Sys, y': Sys, g: Pages, pid: Word, trapReturn: Word)
    requires ForkStates(y, y', g, pid, trapReturn) && Slots(y'.k)
    ensures AllOwn(y') && forall j: nat :: InUse(y.k, j) && j != y.k.current ==> Kept(y, y', j)
  {
    hide FreeList, Children, Parents, I.Core, I.OneRunning, I.Sleepers, HeapRoles, R.PagesOk, NewFrame, FreshStack,
         SetFrame, FrameOf, Owns, Kept, AllOwn;
    assert forall j: nat :: InUse(y.k, j) && j != y.k.current ==> Kept(y, y', j) by {
      forall j: nat | InUse(y.k, j) && j != y.k.current ensures Kept(y, y', j) {
        ForkKeeps(y, y', g, pid, trapReturn, j);
      }
    }
    forall j: nat | InUse(y'.k, j) ensures Owns(y'.m.role, y'.k.procs[j].pages)
        && Mapped(y'.m.pages, y'.k.procs[j].pages)
    {
      if j == FindUnused(y.k.procs) {
        ForkChild(y.m.role, g);
      } else {
        ForkOthers(y, y', g, pid, trapReturn, j);
        ForkStillMapped(y, y', g, pid, trapReturn, j);
      }
    }
    AllOwnIs(y');
  }

  lemma AllOwnIs(y: Sys)
    requires Slots(y.k)
    requires forall j: nat :: InUse(y.k, j) ==>
        Owns(y.m.role, y.k.procs[j].pages) && Mapped(y.m.pages, y.k.procs[j].pages)
    ensures AllOwn(y)
  {
  }

  lemma ForkStillMapped(y: Sys, y': Sys, g: Pages, pid: Word, trapReturn: Word, j: nat)
    requires ForkStates(y, y', g, pid, trapReturn) && InUse(y.k, j)
    ensures Mapped(y'.m.pages, y.k.procs[j].pages)
  {
    hide FreeList, Children, Parents, I.Inv, R.PagesOk, NewFrame, FreshStack, SetFrame, FrameOf, HeapRoles, ForkProcess,
         Entry, TreeIs;
    ForkOthers(y, y', g, pid, trapReturn, j);
    CurrentOwns(y);
    OwnsAt(y, j);
    if j != y.k.current {
      Apart(y, y.k.current, j, Current(y.k).pages.stack);
    }
    var h := y.k.procs[j].pages;
    assert h.pgd in PageSet(h) && h.pud in PageSet(h) && h.pmd in PageSet(h);
  }

  // Runs

  /** Actions of process j itself, or of the process that reaps it. */
  ghost predicate Concerns(y: Sys, a: Action, j: nat)
    requires Slots(y.k)
  {
    y.k.current == j || (a.Do? && L.Reaped(y.k, a.event) == L.Slot(j))
  }

  lemma DoNext(y: Sys, e: Event, value: Word)
    requires Coupled(y) && CanStep(y, Do(e, value))
    ensures Coupled(Next(y, Do(e, value)))
    ensures forall j: nat :: InUse(y.k, j) && !Concerns(y, Do(e, value), j) ==> Kept(y, Next(y, Do(e, value)), j)
  {
    hide Coupled, DoEvent, L.Reaped, Kept, WithResult, Returns;
    DoCoupled(y, e);
    if Returns(y.k, e) {
      ReturnsUser(y, e);
      var y1, y2 := DoEvent(y, e), Next(y, Do(e, value));
      ResultCoupled(y1, value);
      forall j: nat | InUse(y.k, j) && !Concerns(y, Do(e, value), j) ensures Kept(y, y2, j) {
        KeptInUse(y, y1, j);
        KeptTrans(y, y1, y2, j);
      }
    }
  }

  lemma ResultCoupled(y: Sys, value: Word)
    requires Coupled(y) && y.k.current != 0
    ensures Coupled(WithResult(y, value))
    ensures forall j: nat :: InUse(y.k, j) && j != y.k.current ==> Kept(y, WithResult(y, value), j)
  {
    hide FreeList, Children, Parents, I.Inv, AllOwn, HeapRoles, R.PagesOk, Kept, Owns, OnlyWrites, StoreResult;
    CurrentOwns(y);
    StoreResultWrites(y.m, Current(y.k).pages, value);
    WritesCoupled(y, StoreResult(y.m, Current(y.k).pages, value));
  }

  lemma NextCoupled(y: Sys, a: Action)
    requires Coupled(y) && CanStep(y, a)
    ensures Coupled(Next(y, a))
    ensures forall j: nat :: InUse(y.k, j) && !Concerns(y, a, j) ==> Kept(y, Next(y, a), j)
  {
    hide FreeList, Children, Parents, I.Core, I.OneRunning, I.Sleepers, AllOwn, HeapRoles, R.PagesOk, Kept, Owns,
         TreeIs, DoFork, DoEvent,
         Forked, SaveFrame, UserStore, LoadProgram, ScratchStack, OnlyWrites, Walk;
    match a
    case Do(e, value) => DoNext(y, e, value);
    case Scratch(words) =>
      CurrentOwns(y);
      ScratchWrites(y.m, Current(y.k).pages, words);
      WritesCoupled(y, ScratchStack(y.m, Current(y.k).pages, words));
    case ForkCall(trapReturn) => ForkStep(y, trapReturn);
    case Enter(frame) =>
      CurrentOwns(y);
      SaveFrameWrites(y.m, Current(y.k).pages, frame);
      WritesCoupled(y, SaveFrame(y.m, Current(y.k).pages, frame));
    case StoreWord(va, w) =>
      CurrentOwns(y);
      UserStoreWrites(y.m, Current(y.k).pages, va, w);
      WritesCoupled(y, UserStore(y.m, Current(y.k).pages, va, w));
    case Load(image) =>
      CurrentOwns(y);
      LoadProgramWrites(y.m, Current(y.k).pages, image);
      WritesCoupled(y, LoadProgram(y.m, Current(y.k).pages, image));
  }

  ghost predicate RunOk(y: Sys, run: seq<Action>)
    requires Coupled(y)
    decreases |run|
  {
    run == [] || (CanStep(y, run[0]) && (NextCoupled(y, run[0]); RunOk(Next(y, run[0]), run[1..])))
  }

  ghost function Run(y: Sys, run: seq<Action>): Sys
    requires Coupled(y) && RunOk(y, run)
    decreases |run|
  {
    if run == [] then y else
    NextCoupled(y, run[0]);
    Run(Next(y, run[0]), run[1..])
  }

  lemma {:induction false} RunCoupled(y: Sys, run: seq<Action>)
    requires Coupled(y) && RunOk(y, run)
    ensures Coupled(Run(y, run)) && Run(y, run).heap == y.heap
    decreases |run|
  {
    if run != [] {
      hide Coupled, Kept, Next;
      NextCoupled(y, run[0]);
      SameHeap(y, run[0]);
      RunCoupled(Next(y, run[0]), run[1..]);
    }
  }

  lemma SameHeap(y: Sys, a: Action)
    requires Coupled(y) && CanStep(y, a)
    ensures Next(y, a).heap == y.heap
  {
    hide Coupled;
  }

  /** No action of the run concerns process j. */
  ghost predicate Bystander(y: Sys, run: seq<Action>, j: nat)
    requires Coupled(y) && RunOk(y, run)
    decreases |run|
  {
    run == [] || (!Concerns(y, run[0], j) && (NextCoupled(y, run[0]); Bystander(Next(y, run[0]), run[1..], j)))
  }

  /**
   Isolation: whatever the other processes do in a run, be it stores, exec, fork, exit or wait, a
   process finds its user page and its saved registers as it left them.
   */
  lemma {:induction false} Isolation(y: Sys, run: seq<Action>, j: nat)
    requires Coupled(y) && RunOk(y, run) && Bystander(y, run, j) && InUse(y.k, j)
    ensures Kept(y, Run(y, run), j)
    decreases |run|
  {
    if run == [] {
      KeptSame(y, j);
    } else {
      hide Coupled, Kept, InUse, Concerns;
      NextCoupled(y, run[0]);
      var y1 := Next(y, run[0]);
      KeptInUse(y, y1, j);
      Isolation(y1, run[1..], j);
      KeptTrans(y, y1, Run(y1, run[1..]), j);
    }
  }

  lemma KeptSame(y: Sys, j: nat)
    requires Coupled(y) && InUse(y.k, j)
    ensures Kept(y, y, j)
  {
    hide FreeList, Children, Parents, I.Inv, HeapRoles, R.PagesOk, Owns;
    assert Owns(y.m.role, y.k.procs[j].pages);
  }

  lemma KeptInUse(y: Sys, y': Sys, j: nat)
    requires Kept(y, y', j)
    ensures Slots(y'.k) && InUse(y'.k, j)
  {
  }

  lemma KeptTrans(x: Sys, y: Sys, z: Sys, j: nat)
    requires Kept(x, y, j) && Kept(y, z, j)
    ensures Kept(x, z, j)
  {
  }

  // What a process's own calls leave alone

  /** Process j has the same pages, the same user page, and the same trap frame from a word on. */
  ghost predicate FrameKept(y: Sys, y': Sys, j: nat, from: nat)
    requires from <= 1
  {
    && Slots(y.k) && Slots(y'.k) && InUse(y.k, j) && InUse(y'.k, j) && y'.k.procs[j].pages == y.k.procs[j].pages
    && KeepsFrameFrom(y.m, y'.m, y.k.procs[j].pages, from)
  }

  lemma KeptFrame(y: Sys, y': Sys, j: nat, from: nat)
    requires Kept(y, y', j) && from <= 1
    ensures FrameKept(y, y', j, from)
  {
  }

  lemma FrameKeptTrans(x: Sys, y: Sys, z: Sys, j: nat, from: nat)
    requires from <= 1 && FrameKept(x, y, j, from) && FrameKept(y, z, j, from)
    ensures FrameKept(x, z, j, from)
  {
  }

  lemma FrameKeptSame(y: Sys, j: nat, from: nat)
    requires from <= 1 && Coupled(y) && InUse(y.k, j)
    ensures FrameKept(y, y, j, from)
  {
    hide Coupled;
    KeptSame(y, j);
    KeptFrame(y, y, j, from);
  }

  /**
   Action a may be one of process j itself if it is an event or a use of the kernel stack; with from 0
   no call of its own returns by it.
   */
  ghost predicate Spares(y: Sys, a: Action, j: nat, from: nat)
    requires Coupled(y) && CanStep(y, a)
  {
    if y.k.current == j then a.Scratch? || (a.Do? && (from == 0 ==> !Returns(y.k, a.event)))
    else !(a.Do? && L.Reaped(y.k, a.event) == L.Slot(j))
  }

  lemma ActionKeepsFrame(y: Sys, a: Action, j: nat, from: nat)
    requires from <= 1 && Coupled(y) && CanStep(y, a) && InUse(y.k, j) && Spares(y, a, j, from)
    ensures FrameKept(y, Next(y, a), j, from)
  {
    hide Coupled, Kept, FrameKept, DoEvent, Returns, L.Reaped, Step, Enabled;
    NextCoupled(y, a);
    if y.k.current != j {
      KeptFrame(y, Next(y, a), j, from);
    } else if a.Scratch? {
      OwnScratch(y, a.words, from);
    } else {
      DoCoupled(y, a.event);
      NotReaped(y, a.event);
      var y1 := DoEvent(y, a.event);
      KeptFrame(y, y1, j, from);
      if Returns(y.k, a.event) {
        ReturnsUser(y, a.event);
        OwnResult(y1, a.value);
        FrameKeptTrans(y, y1, WithResult(y1, a.value), j, from);
      }
    }
  }

  lemma OwnScratch(y: Sys, words: seq<Word>, from: nat)
    requires from <= 1 && Coupled(y) && CanStep(y, Scratch(words))
    ensures FrameKept(y, Next(y, Scratch(words)), y.k.current, from)
  {
    hide FreeList, Children, Parents, I.Inv, AllOwn, HeapRoles, R.PagesOk, Owns, OnlyWrites, ScratchStack, FrameOf;
    CurrentOwns(y);
    ScratchWrites(y.m, Current(y.k).pages, words);
  }

  lemma OwnResult(y: Sys, value: Word)
    requires Coupled(y) && y.k.current != 0
    ensures FrameKept(y, WithResult(y, value), y.k.current, 1)
  {
    hide FreeList, Children, Parents, I.Inv, AllOwn, HeapRoles, R.PagesOk, Owns, OnlyWrites, StoreResult, FrameOf;
    CurrentOwns(y);
    StoreResultWrites(y.m, Current(y.k).pages, value);
  }

  ghost predicate RunSpares(y: Sys, run: seq<Action>, j: nat, from: nat)
    requires Coupled(y) && RunOk(y, run)
    decreases |run|
  {
    run == [] || (Spares(y, run[0], j, from) && (NextCoupled(y, run[0]); RunSpares(Next(y, run[0]), run[1..], j, from)))
  }

  /**
   Through all its own sleeps, waits and key reads, and whatever the others do, a process keeps its
   user page and its saved registers, except that a call that returns stores x0; before it returns,
   x0 is kept as well.
   */
  lemma {:induction false} OwnCallsKeepFrame(y: Sys, run: seq<Action>, j: nat, from: nat)
    requires from <= 1 && Coupled(y) && RunOk(y, run) && InUse(y.k, j) && RunSpares(y, run, j, from)
    ensures FrameKept(y, Run(y, run), j, from)
    decreases |run|
  {
    if run == [] {
      FrameKeptSame(y, j, from);
    } else {
      hide Coupled, FrameKept, InUse, Spares;
      NextCoupled(y, run[0]);
      var y1 := Next(y, run[0]);
      ActionKeepsFrame(y, run[0], j, from);
      FrameKeptInUse(y, y1, j, from);
      OwnCallsKeepFrame(y1, run[1..], j, from);
      FrameKeptTrans(y, y1, Run(y1, run[1..]), j, from);
    }
  }

  lemma FrameKeptInUse(y: Sys, y': Sys, j: nat, from: nat)
    requires from <= 1 && FrameKept(y, y', j, from)
    ensures Slots(y'.k) && InUse(y'.k, j)
  {
  }

  /** Process j runs, and x0 of its frame holds the value. */
  ghost predicate HasResult(y: Sys, j: nat, value: Word) {
    && Slots(y.k) && y.k.current == j && Current(y.k).pages.Pages? && Shape(y.m)
    && Current(y.k).pages.stack < NPAGES && FrameOf(y.m.pages[Current(y.k).pages.stack])[X0] == value
  }

  /** When a call returns, its result is in x0 of the frame of the process that made it. */
  lemma ResultInFrame(y: Sys, e: Event, value: Word)
    requires Coupled(y) && CanStep(y, Do(e, value)) && Returns(y.k, e)
    ensures HasResult(Next(y, Do(e, value)), y.k.current, value)
  {
    hide FreeList, Children, Parents, I.Inv, AllOwn, HeapRoles, R.PagesOk, DoEvent, Returns, FrameOf, SetFrame;
    DoCoupled(y, e);
    ReturnsUser(y, e);
    var y1 := DoEvent(y, e);
    CurrentOwns(y1);
    var stack := y1.m.pages[Current(y1.k).pages.stack];
    FrameRoundTrip(stack, FrameOf(stack)[X0 := value]);
  }

  /** A child is a copy of its parent until one of the two changes its own page. */
  lemma ChildStartsAsCopy(y: Sys, trapReturn: Word, run: seq<Action>)
    requires Coupled(y) && CanStep(y, ForkCall(trapReturn)) && Coupled(Next(y, ForkCall(trapReturn)))
    requires RunOk(Next(y, ForkCall(trapReturn)), run)
    requires Bystander(Next(y, ForkCall(trapReturn)), run, FindUnused(y.k.procs))
    ensures var t, i, parent := Run(Next(y, ForkCall(trapReturn)), run), FindUnused(y.k.procs), Current(y.k).pages;
            && Slots(t.k) && i < NUM_PROC && t.k.procs[i].pages.Pages? && parent.Pages?
            && var g := t.k.procs[i].pages;
               && g == NextPages(y.m) && g.user < |t.m.pages| && g.stack < |t.m.pages| && parent.user < |y.m.pages|
               && parent.stack < |y.m.pages|
               && t.m.pages[g.user] == y.m.pages[parent.user]
               && FrameOf(t.m.pages[g.stack]) == FrameOf(y.m.pages[parent.stack])[X0 := 0]
  {
    hide FreeList, Children, Parents, I.Inv, HeapRoles, AllOwn, R.PagesOk, FreshStack, DoFork;
    ForkStep(y, trapReturn);
    assert ForkOutcome(y, DoFork(y, trapReturn), trapReturn);
    var y1, i := Next(y, ForkCall(trapReturn)), FindUnused(y.k.procs);
    Isolation(y1, run, i);
    FrameRoundTrip(FreshStack(trapReturn), FrameOf(y.m.pages[Current(y.k).pages.stack])[X0 := 0]);
  }

  // What holds in every reachable state

  /** The running process's stack and the tables of its map are in use, and va is translated through them. */
  ghost predicate StandsOn(t: Sys, va: nat) {
    && Slots(t.k) && Shape(t.m)
    && (t.k.current != 0 ==>
          && Current(t.k).pages.Pages?
          && var g := Current(t.k).pages;
             && (forall p :: p in PageSet(g) ==> p < NPAGES && p !in t.m.free)
             && Walk(t.m.pages, g.pgd, va) ==
                if BlockOf(va) == BlockOf(USER_VA) then Some(g.user * PAGE_SIZE + va % PAGE_SIZE) else None)
  }

  /** In every reachable state the kernel runs on a stack and on page tables that are not free. */
  lemma RunningPagesInUse(y: Sys, run: seq<Action>, va: nat)
    requires Coupled(y) && RunOk(y, run)
    ensures StandsOn(Run(y, run), va)
  {
    hide StandsOn;
    RunCoupled(y, run);
    RunningPages(Run(y, run), va);
  }

  lemma RunningPages(t: Sys, va: nat)
    requires Coupled(t)
    ensures StandsOn(t, va)
  {
    hide Paging.Inv, I.Core, I.OneRunning, I.Sleepers, HeapRoles, AllOwn, R.PagesOk, Walk, UserAccess, BlockOf, Owns,
         TreeIs, Mapped;
    CoupledParts(t);
    if t.k.current != 0 {
      CurrentOwns(t);
      UserWalk(t, t.k.current, va);
      var g := Current(t.k).pages;
      forall p | p in PageSet(g) ensures p < NPAGES && p !in t.m.free {
        OwnInHeap(t, t.k.current, p);
        InUseNotFree(t.m, p);
      }
    }
  }

  lemma CoupledParts(t: Sys)
    requires Coupled(t)
    ensures Slots(t.k) && Shape(t.m) && Paging.Inv(t.m)
  {
    hide FreeList, Children, Parents, HeapRoles, AllOwn, R.PagesOk;
  }

  lemma InUseNotFree(m: Mem, p: nat)
    requires Paging.Inv(m) && p < NPAGES && m.role[p] != Free
    ensures p !in m.free
  {
    hide Children, Parents;
  }

  lemma {:induction false} ListSize(free: seq<nat>, pages: set<nat>)
    requires Paging.NoDup(free) && forall p :: p in pages <==> p in free
    ensures |free| == |pages|
  {
    if free == [] {
      assert pages == {};
    } else {
      var last := free[|free| - 1];
      assert last in pages;
      forall p ensures p in pages - {last} <==> p in free[..|free| - 1] {
        if p in free && p != last {
          var k :| 0 <= k < |free| && free[k] == p;
          assert free[..|free| - 1][k] == p;
        }
      }
      ListSize(free[..|free| - 1], pages - {last});
    }
  }

  /** In every reachable state the free list is five pages shorter for each process. */
  lemma FreeListLength(y: Sys, run: seq<Action>)
    requires Coupled(y) && RunOk(y, run)
    ensures var t := Run(y, run); |t.m.free| + 5 * R.InUse(t.k.procs) == |y.heap|
  {
    RunCoupled(y, run);
    var t := Run(y, run);
    FreeSet(t);
    ListSize(t.m.free, t.k.free);
    hide FreeList, Children, Parents, I.Core, I.OneRunning, I.Sleepers, HeapRoles, AllOwn;
    R.PageCount(t.k, t.heap);
  }

  lemma FreeSet(t: Sys)
    requires Coupled(t)
    ensures Paging.NoDup(t.m.free) && forall p :: p in t.k.free <==> p in t.m.free
  {
    hide FreeLinks, Children, Parents, I.Inv, AllOwn, R.PagesOk;
  }

  // Start-up

  ghost predicate Blank(m: Mem) {
    Inv(m) && |m.free| >= 5 && forall p :: 0 <= p < NPAGES ==> m.role[p] in {Reserved, Held, Free}
  }

  /** Memory after init_fs took one page for the FCB table and one for the descriptors. */
  ghost function WithFileTables(m: Mem): Mem
    requires Inv(m) && |m.free| >= 2
  {
    TwoFree(m);
    WithPageInv(m, Zeros(), Held);
    WithPage(WithPage(m, Zeros(), Held), Zeros(), Held)
  }

  /**
   The page account from the start: of the pages init_memory freed, two hold the file tables, and in
   every state reachable from init_process the rest is free or belongs to processes, five each.
   */
  lemma PagesFromBoot(m: Mem, trapReturn: Word, words: seq<Word>, run: seq<Action>)
    requires Inv(m) && |m.free| >= 7 && |words| <= PAGE_WORDS && forall p :: 0 <= p < NPAGES ==>
        m.role[p] in {Reserved, Free}
    requires Blank(WithFileTables(m)) && Coupled(BootState(WithFileTables(m), trapReturn, words))
    requires RunOk(BootState(WithFileTables(m), trapReturn, words), run)
    ensures var t := Run(BootState(WithFileTables(m), trapReturn, words), run);
            |t.m.free| + 2 + 5 * R.InUse(t.k.procs) == |m.free|
  {
    hide Coupled, Inv, Blank, RunOk, Run, BootState;
    FreeListLength(BootState(WithFileTables(m), trapReturn, words), run);
    BootHeap(m, trapReturn, words);
  }

  lemma BootHeap(m: Mem, trapReturn: Word, words: seq<Word>)
    requires Inv(m) && |m.free| >= 7 && |words| <= PAGE_WORDS && Blank(WithFileTables(m))
    ensures |BootState(WithFileTables(m), trapReturn, words).heap| + 2 == |m.free|
  {
    hide FreeLinks, Children, Parents, BootMem, BootKernel;
    var t := WithFileTables(m);
    ListSize(t.free, FreePages(t));
  }

  /** init_fs leaves no page in a map, so that init_process can start. */
  lemma BlankAtBoot(m: Mem, trapReturn: Word, words: seq<Word>)
    requires Inv(m) && |m.free| >= 7 && |words| <= PAGE_WORDS && forall p :: 0 <= p < NPAGES ==>
        m.role[p] in {Reserved, Free}
    ensures Blank(WithFileTables(m)) && Coupled(BootState(WithFileTables(m), trapReturn, words))
  {
    hide FreeLinks, Children, Parents, Coupled, BootMem, BootKernel;
    TwoFree(m);
    WithPageInv(m, Zeros(), Held);
    WithPageInv(WithPage(m, Zeros(), Held), Zeros(), Held);
    BootCoupled(WithFileTables(m), trapReturn, words);
  }

  ghost function BootState(m: Mem, trapReturn: Word, words: seq<Word>): Sys
    requires Blank(m) && |words| <= PAGE_WORDS
  {
    Sys(BootKernel(m), BootMem(m, trapReturn, words), FreePages(m))
  }

  ghost function FreePages(m: Mem): set<nat> { set p | p in m.free }

  /** init_process: the idle process runs, and process 1, loaded from its file, is ready. */
  ghost function BootKernel(m: Mem): Kernel
    requires |m.free| >= 5
  {
    Kernel(seq(NUM_PROC, i => if i == 0 then Proc(0, 0, Running, User, NoPages)
                              else if i == 1 then Proc(1, 0, Ready, User, NextPages(m)) else NO_PROC),
           0, [1], [], [], 2, 0, FreePages(m) - PageSet(NextPages(m)))
  }

  ghost function BootMem(m: Mem, trapReturn: Word, words: seq<Word>): Mem
    requires Inv(m) && |m.free| >= 5 && |words| <= PAGE_WORDS
  {
    AllocProcessIs(m, trapReturn);
    FreshRootEmpty(AllocProcess(m, trapReturn), NextPages(m).pgd, USER_VA);
    SetupUvm(AllocProcess(m, trapReturn), NextPages(m).pgd, Read(words, true)).1
  }

  lemma SetupInFreshRoot(s: Mem, root: nat, words: seq<Word>)
    requires Inv(s) && FreshRoot(s, root) && |s.free| >= 3 && |words| <= PAGE_WORDS
    ensures Walk(s.pages, root, USER_VA).None?
    ensures var t := SetupUvm(s, root, Read(words, true)).1;
            && Inv(t) && t.free == s.free[3..] && UserPageAdded(s, t, root, s.free[0], s.free[1], s.free[2])
            && t.pages[s.free[0]] == words + Zeros()[|words|..]
  {
    FreshRootEmpty(s, root, USER_VA);
    hide FreeList, Children, Parents, Walk, FreshRoot, MissingTables, EnoughPages, WithUserPage, AfterFree,
         UserPageAdded, SetupUvm;
    UserPageInFreshRoot(s, root);
    SetupUvmOutcome(s, root, Read(words, true));
    SetupAdds(s, root, words);
  }

  lemma SetupAdds(s: Mem, root: nat, words: seq<Word>)
    requires Inv(s) && FreshRoot(s, root) && |s.free| >= 3 && |words| <= PAGE_WORDS
    requires Walk(s.pages, root, USER_VA).None? && EnoughPages(s, root)
    requires UserPageAdded(s, WithUserPage(s, root), root, s.free[0], s.free[1], s.free[2])
    ensures UserPageAdded(s, SetupUvm(s, root, Read(words, true)).1, root, s.free[0], s.free[1], s.free[2])
  {
    ApartFromFree(s, root);
    hide FreeList, Children, Parents, Walk, FreshRoot, EnoughPages, WithUserPage, Entry;
  }

  lemma BootMemIs(m: Mem, trapReturn: Word, words: seq<Word>)
    requires Inv(m) && |m.free| >= 5 && |words| <= PAGE_WORDS
    ensures var t, g := BootMem(m, trapReturn, words), NextPages(m);
            && AllFree(m, g)
            && Inv(t) && t.free == m.free[5..] && t.role == RolesWith(m.role, g)
            && Mapped(t.pages, g) && t.pages[g.stack] == FreshStack(trapReturn)
            && t.pages[g.user] == words + Zeros()[|words|..]
  {
    NextPagesFree(m);
    AllocProcessIs(m, trapReturn);
    hide FreeList, Children, Parents, AllocProcess, FreshStack, Walk, FreshRoot, SetupUvm;
    FreshRootEmpty(AllocProcess(m, trapReturn), NextPages(m).pgd, USER_VA);
    SetupInFreshRoot(AllocProcess(m, trapReturn), NextPages(m).pgd, words);
  }

  lemma BootKernelInv(m: Mem)
    requires FreeList(m) && |m.free| >= 5
    ensures I.Inv(BootKernel(m))
  {
    hide FreeLinks;
    NextPagesFree(m);
  }

  lemma BootPages(m: Mem)
    requires FreeList(m) && |m.free| >= 5
    ensures Slots(BootKernel(m)) && R.PagesOk(BootKernel(m), FreePages(m))
  {
    hide FreeLinks;
    NextPagesFree(m);
    var own := R.Owned(BootKernel(m));
    forall p | p in FreePages(m) && p !in BootKernel(m).free ensures exists i :: 0 <= i < |own| && p in own[i] {
      assert p in own[1];
    }
  }

  /** The state init_process leaves is one the invariants hold in, with every free page of the heap accounted for. */
  lemma BootCoupled(m: Mem, trapReturn: Word, words: seq<Word>)
    requires Blank(m) && |words| <= PAGE_WORDS
    ensures Coupled(BootState(m, trapReturn, words))
  {
    var y := Sys(BootKernel(m), BootMem(m, trapReturn, words), FreePages(m));
    BootMemIs(m, trapReturn, words);
    BootKernelInv(m);
    BootPages(m);
    hide FreeList, Children, Parents, I.Inv, R.PagesOk, BootMem, NextPages, HeapRoles, AllOwn, Owns, BootKernel;
    ForkChild(m.role, NextPages(m));
    BootHeapRoles(m, y);
    BootOwn(m, y);
  }

  lemma BootHeapRoles(m: Mem, y: Sys)
    requires Blank(m) && y.k == BootKernel(m) && Shape(y.m) && y.heap == FreePages(m)
    requires AllFree(m, NextPages(m))
    requires y.m.role == RolesWith(m.role, NextPages(m))
    ensures HeapRoles(y)
  {
    hide FreeLinks, NoDup, Children, Parents, NextPages;
    var g := NextPages(m);
    RolesWithIs(m.role, g);
    assert forall p :: 0 <= p < NPAGES ==> (p in m.free <==> m.role[p] == Free);
    assert forall p :: p in m.free ==> p < NPAGES;
  }

  lemma RolesWithIs(role: seq<Role>, g: Pages)
    requires Distinct(g) && g.stack < |role| && g.pgd < |role| && g.user < |role| && g.pud < |role| && g.pmd < |role|
    ensures forall p :: 0 <= p < |role| ==>
      if p in PageSet(g) then RolesWith(role, g)[p] !in {Reserved, Free} else RolesWith(role, g)[p] == role[p]
  {
  }

  lemma BootOwn(m: Mem, y: Sys)
    requires |m.free| >= 5 && y.k == BootKernel(m) && Slots(y.k) && Owns(y.m.role, NextPages(m))
    requires Mapped(y.m.pages, NextPages(m))
    ensures AllOwn(y)
  {
    hide Owns;
  }
}
