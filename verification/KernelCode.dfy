/** fork and wait as the kernel runs them: the process table and the page allocator changed in place, together. */
module KernelCode {
  import opened Words
  import opened Paging
  import opened Walks
  import opened Teardown
  import opened UserMaps
  import opened Machine
  import opened System
  import opened SystemRuns
  import opened Memory
  import opened Lists
  import opened Scheduler
  import I = MachineInv
  import L = MachineLaws
  import R = MachineRuns

  class KernelState {
    const pc: ProcessControl
    const memory: PhysicalMemory
    ghost const heap: set<nat>

    constructor (pc: ProcessControl, memory: PhysicalMemory, ghost heap: set<nat>)
      ensures this.pc == pc && this.memory == memory && this.heap == heap
    {
      this.pc, this.memory, this.heap := pc, memory, heap;
    }

    ghost function Abs(): Sys
      reads pc`currentProcess, pc`pidNum, pc`ticks, pc`free, pc.table, pc.readyList, pc.waitList, pc.killList, memory,
          memory.ram
    {
      Sys(pc.Abs(), memory.State(), heap)
    }

    /** The addresses in a process structure are those of its pages. */
    ghost predicate PointersOf(p: Process)
      reads p`pages, p`stack, p`pageMap
    {
      p.pages.Pages? ==>
          p.pages.stack < NPAGES && p.pages.pgd < NPAGES && p.stack == Addr(p.pages.stack)
          && p.pageMap == Addr(p.pages.pgd)
    }

    ghost predicate Pointers()
      reads pc.table
    {
      forall i :: 0 <= i < |pc.table| ==> PointersOf(pc.table[i])
    }

    ghost predicate Valid()
      reads pc`currentProcess, pc`pidNum, pc`ticks, pc`free, pc`ttbr0, pc.table, pc.readyList, pc.waitList, pc.killList
      reads pc.readyList.items, pc.waitList.items, pc.killList.items, memory, memory.ram
    {
      TableOk() && memory.Valid() && Coupled(Abs())
    }

    /** What the scheduler side needs to be sound, and the value it has. */
    ghost predicate TableOk()
      reads pc`currentProcess, pc`ttbr0, pc.table, pc.readyList, pc.waitList, pc.killList
      reads pc.readyList.items, pc.waitList.items, pc.killList.items
    {
      pc.Linked() && pc.Loaded() && Pointers()
    }

    /**
     The page-table register holds the root of the running process's own map, in use and translating its
     addresses.
     */
    lemma LoadedRoot(va: nat)
      requires Valid() && pc.Abs().current != 0
      ensures StandsOn(Abs(), va) && RootIs(pc.Abs(), pc.ttbr0)
    {
      hide StandsOn, RootIs, PhysicalMemory.Valid, Coupled, ProcsOf, I.Inv;
      RunningPages(Abs(), va);
      OwnsRoot(Abs());
      CurrentRoot();
    }

    ghost predicate RootIs(k: Kernel, root: Word) {
      Slots(k) && Current(k).pages.Pages? && root == Current(k).pages.pgd * PAGE_SIZE
    }

    lemma OwnsRoot(y: Sys)
      requires Coupled(y) && y.k.current != 0
      ensures Slots(y.k) && Current(y.k).pages.Pages?
    {
      hide Paging.Inv, I.Inv, R.PagesOk, HeapRoles, AllOwn;
      CurrentOwns(y);
    }

    lemma CurrentRoot()
      requires TableOk() && Slots(pc.Abs()) && Current(pc.Abs()).pages.Pages?
      ensures RootIs(pc.Abs(), pc.ttbr0)
    {
      hide ProcsOf;
      pc.CurrentIsMember();
      PointersAt(pc.currentProcess);
      RootAddress(Current(pc.Abs()).pages.pgd);
    }

    lemma RootAddress(p: nat)
      requires p < NPAGES
      ensures V2P(Addr(p)) == p * PAGE_SIZE && V2P(Addr(p)) / PAGE_SIZE == p
    {
    }

    /** kfree of the stack, then free_vm. */
    method FreePages(stack: Word, pageMap: Word, ghost g: Pages)
      requires memory.Valid() && System.Owns(memory.role, g) && TreeIs(memory.role, g) && stack == Addr(g.stack)
          && pageMap == Addr(g.pgd)
      modifies memory, memory.ram
      ensures memory.Valid() && memory.State() == ReapMem(old(memory.State()), g)
    {
      hide FreeList, Children, Parents, TreeIs, Addr, PhysicalMemory.Linked;
      AddrFrame(g.stack);
      AddrFrame(g.pgd);
      memory.FreeHeld(stack);
      memory.FreeVm(pageMap);
    }

    /** Clear the structure of a process whose pages are free again. */
    method Forget(process: Process)
      requires TableOk() && pc.Member(process) && process in pc.table && !pc.Listed(process)
          && process != pc.currentProcess
      modifies pc`free, pc.table
      ensures TableOk()
      ensures var k := old(pc.Abs()); Slots(k) && pc.Abs() == Forgotten(k, process.slot, old(process.pages))
    {
      hide pc.Linked, ProcsOf;
      pc.CurrentIsMember();
      pc.LinkedTable();
      pc.ClearProcess(process);
      assert process.pages == NoPages;
      pc.LinkedSlots();
      pc.LeaveCall();
      forall i | 0 <= i < |pc.table| ensures PointersOf(pc.table[i]) {
        assert old(PointersOf(pc.table[i]));
      }
    }

    lemma PointersAt(process: Process)
      requires TableOk() && process in pc.table
      ensures PointersOf(process)
    {
    }

    /** The rest of a round of wait that found its process. */
    method ReapProcess(process: Process, ghost g: Pages)
      requires TableOk() && memory.Valid() && process.pages == g && g.Pages?
      requires pc.Member(process) && process in pc.table && !pc.Listed(process) && process != pc.currentProcess
      requires System.Owns(memory.role, g) && TreeIs(memory.role, g)
      modifies pc`free, pc.table, memory, memory.ram
      ensures TableOk() && memory.Valid()
      ensures memory.State() == ReapMem(old(memory.State()), g)
      ensures var k := old(pc.Abs()); Slots(k) && pc.Abs() == Forgotten(k, process.slot, g)
    {
      hide TableOk, PhysicalMemory.Valid, TreeIs, System.Owns, Forgotten, PhysicalMemory.State, ReapMem;
      PointersAt(process);
      FreePages(process.stack, process.pageMap, g);
      Forget(process);
    }

    /** remove_list(kill_list, pid), with the rest of the kernel as it was. */
    method FindKilled(pid: int) returns (p: Process?)
      requires TableOk() && memory.Valid()
      modifies pc.killList, pc.table
      ensures TableOk() && memory.Valid() && memory.State() == old(memory.State())
      ensures var s := old(pc.Abs()); var k := FirstWaiter(s.procs, s.killed, pid);
              if k == |s.killed| then p == null && pc.Abs() == s
              else p != null && pc.Member(p) && p in pc.table && !pc.Listed(p) && p.slot == s.killed[k] < |s.procs|
                   && (p.slot != s.current ==> p != pc.currentProcess) && p.pages == s.procs[p.slot].pages
                   && pc.Abs() == s.(killed := RemoveAt(s.killed, k))
    {
      hide pc.Linked, PhysicalMemory.Valid, FirstWaiter, RemoveAt;
      pc.LinkedSlots();
      p := pc.Take(pc.killList, pid);
      pc.LinkedSlots();
      if p != null {
        assert pc.Abs().procs[p.slot] == ProcOf(p);
      }
      forall i | 0 <= i < |pc.table| ensures PointersOf(pc.table[i]) {
        assert old(PointersOf(pc.table[i]));
      }
    }

    method SleepInWait(pid: int)
      requires TableOk() && memory.Valid() && I.Inv(pc.Abs()) && pc.Abs().current != 0
      modifies pc, pc.table, pc.readyList, pc.waitList
      ensures TableOk() && memory.Valid() && memory.State() == old(memory.State())
      ensures Slots(old(pc.Abs())) && pc.Abs() == SleepOn(old(pc.Abs()), WAIT_CHILD, InWait(pid))
    {
      hide pc.Linked, PhysicalMemory.Valid, SleepOn, I.Inv;
      pc.LinkedSlots();
      pc.SleepFor(WAIT_CHILD, InWait(pid));
      forall i | 0 <= i < |pc.table| ensures PointersOf(pc.table[i]) {
        assert old(PointersOf(pc.table[i]));
      }
    }

    /** One round of wait(pid): reap the killed process with that pid, or sleep. */
    method WaitRound(pid: int, ghost e: Event) returns (reaped: bool)
      requires Valid() && IsWaitRound(pc.Abs(), e, pid)
      modifies pc, pc.table, pc.readyList, pc.waitList, pc.killList, memory, memory.ram
      ensures Valid()
      ensures CanDo(old(Abs()), e) && Abs() == DoEvent(old(Abs()), e)
      ensures reaped == L.Reaped(old(pc.Abs()), e).Slot?
    {
      hide TableOk, Coupled, DoEvent, PhysicalMemory.Valid, SleepOn, TreeIs, System.Owns, ReapMem, Return, FirstWaiter,
           ProcsOf, I.Inv, L.Reaped,
           ProcessControl.Abs;
      ghost var y := Abs();
      CanWait(y, e, pid);
      DoCoupled(y, e);
      ghost var k := FirstWaiter(y.k.procs, y.k.killed, pid);
      var process := FindKilled(pid);
      if process != null {
        WaitFinds(y, e, pid, k);
        ReapProcess(process, y.k.procs[process.slot].pages);
        return true;
      }
      WaitFindsNone(y, e, pid);
      SleepInWait(pid);
      return false;
    }

    // fork

    /** A cleared stack page with the saved return address and a new trap frame; NULL when no page is left. */
    method NewStack(trapReturn: Word) returns (stack: Word)
      requires memory.Valid()
      modifies memory, memory.ram
      ensures memory.Valid()
      ensures old(memory.free) == [] ==> stack == 0 && memory.State() == old(memory.State())
      ensures old(memory.free) != [] ==>
        stack == Addr(old(memory.free)[0]) && IsPage(stack)
            && memory.State() == WithPage(old(memory.State()), FreshStack(trapReturn), Held)
    {
      hide FreeList, Children, Parents, Addr;
      ghost var m := memory.State();
      HeadFree(m);
      stack := memory.Kalloc();
      if stack != 0 {
        WithPageInv(m, FreshStack(trapReturn), Held);
        AddrFrame(m.free[0]);
        FillStack(stack, trapReturn);
        assert memory.State() == WithPage(m, FreshStack(trapReturn), Held);
      }
    }

    method FillStack(stack: Word, trapReturn: Word)
      requires memory.ram.Length == NPAGES == |memory.role| && IsPage(stack) && memory.role[Frame(stack)] != Free
      modifies memory.ram
      ensures memory.State() ==
        old(memory.State()).(pages := old(memory.ram[..])[Frame(stack) := FreshStack(trapReturn)])
    {
      hide Addr, FreshStack;
      ghost var m, p := memory.State(), Frame(stack);
      memory.Clear(stack);
      StackWords(m.pages[p := Zeros()], p, trapReturn);
      memory.Store(stack, FRAME - 1, trapReturn);
      memory.Store(stack, FRAME + ELR, USER_VA);
      memory.Store(stack, FRAME + SP0, USER_VA + PAGE_SIZE);
      assert m.pages[p := Zeros()][p := FreshStack(trapReturn)] == m.pages[p := FreshStack(trapReturn)];
    }

    /** The three stores into a cleared stack page make it a fresh one. */
    lemma StackWords(pages: seq<Page>, p: nat, trapReturn: Word)
      requires p < |pages| && pages[p] == Zeros()
      ensures var m1 := pages[p := pages[p][FRAME - 1 := trapReturn]];
              var m2 := m1[p := m1[p][FRAME + ELR := USER_VA]];
              m2[p := m2[p][FRAME + SP0 := USER_VA + PAGE_SIZE]] == pages[p := FreshStack(trapReturn)]
    {
      assert FreshStack(trapReturn) ==
        Zeros()[FRAME - 1 := trapReturn][FRAME + ELR := USER_VA][FRAME + SP0 := USER_VA + PAGE_SIZE];
    }

    /** A cleared page for the root of a map; NULL when no page is left. */
    method NewMap() returns (pageMap: Word)
      requires memory.Valid()
      modifies memory, memory.ram
      ensures memory.Valid()
      ensures old(memory.free) == [] ==> pageMap == 0 && memory.State() == old(memory.State())
      ensures old(memory.free) != [] ==>
        pageMap == Addr(old(memory.free)[0]) && IsPage(pageMap)
            && memory.State() == WithPage(old(memory.State()), Zeros(), Pgd)
    {
      hide FreeList, Children, Parents, Addr;
      ghost var m := memory.State();
      HeadFree(m);
      pageMap := memory.Kalloc();
      if pageMap != 0 {
        WithPageInv(m, Zeros(), Pgd);
        AddrFrame(m.free[0]);
        memory.Clear(pageMap);
        memory.role := memory.role[Frame(pageMap) := Pgd];
        assert memory.State() == WithPage(m, Zeros(), Pgd);
      }
    }

    /** alloc_new_process: stack and root of a new process. Fails where the kernel halts for want of a page. */
    method AllocPages(trapReturn: Word) returns (ok: bool, stack: Word, pageMap: Word)
      requires memory.Valid()
      modifies memory, memory.ram
      ensures ok <==> |old(memory.free)| >= 2
      ensures ok ==> memory.Valid() && memory.State() == AllocProcess(old(memory.State()), trapReturn)
      ensures ok ==> stack == Addr(old(memory.free)[0]) && pageMap == Addr(old(memory.free)[1])
    {
      hide FreeList, Children, Parents, Addr, FreshStack, PhysicalMemory.Linked;
      ok := false;
      pageMap := 0;
      stack := NewStack(trapReturn);
      if stack != 0 {
        assert memory.free == old(memory.free)[1..];
        pageMap := NewMap();
        ok := pageMap != 0;
      }
    }

    /** alloc_new_process and copy_uvm. Fails where the kernel halts for want of a page. */
    method AllocAndCopy(parentMap: Word, ghost parent: Pages, trapReturn: Word)
      returns (ok: bool, stack: Word, pageMap: Word)
      requires memory.Valid() && System.Owns(memory.role, parent) && TreeIs(memory.role, parent)
          && parentMap == Addr(parent.pgd)
      modifies memory, memory.ram
      ensures ok <==> |old(memory.free)| >= 5
      ensures ok ==>
          memory.Valid() && CanFork(old(memory.State()), parent)
          && memory.State() == ForkedMap(old(memory.State()), parent, trapReturn)
      ensures ok ==> stack == Addr(old(memory.free)[0]) && pageMap == Addr(old(memory.free)[1])
    {
      ghost var m := memory.State();
      if |m.free| >= 2 {
        CopyReady(m, parent, trapReturn);
      }
      hide FreeList, Children, Parents, Addr, TreeIs, AllocProcess, UserMaps.CopyUvm, CanCopy, PhysicalMemory.Linked,
           Frame, IsPage, EnoughPages, PmdFor, Walk;
      ok, stack, pageMap := AllocPages(trapReturn);
      if ok {
        ok := memory.CopyUvm(pageMap, parentMap, PAGE_WORDS);
      }
    }

    /** The child's trap frame is copied from the parent's with x0 = 0; the parent's x0 gets the call's result. */
    method CopyFrame(child: Word, parent: Word, pid: Word)
      requires memory.Valid() && IsPage(child) && IsPage(parent) && Frame(child) != Frame(parent)
      requires memory.role[Frame(child)] == Held && memory.role[Frame(parent)] == Held
      modifies memory.ram
      ensures memory.Valid() && memory.State() == WithFrames(old(memory.State()), Frame(parent), Frame(child), pid)
    {
      hide FreeList, Children, Parents, SetFrame, FrameOf, Addr;
      ghost var m := memory.State();
      WithFramesInv(m, Frame(parent), Frame(child), pid);
      var frame := FrameOf(memory.ram[Frame(parent)]);
      memory.ram[Frame(child)] := SetFrame(memory.ram[Frame(child)], frame[X0 := 0]);
      memory.ram[Frame(parent)] := SetFrame(memory.ram[Frame(parent)], frame[X0 := pid]);
      assert memory.ram[..] == WithFrames(m, Frame(parent), Frame(child), pid).pages;
    }

    /** fork up to the scheduler: the child's pages. Fails where the kernel halts for want of a page. */
    method ForkMemory(parentMap: Word, parentStack: Word, ghost parent: Pages, pid: Word, trapReturn: Word)
      returns (ok: bool, stack: Word, pageMap: Word)
      requires memory.Valid() && System.Owns(memory.role, parent) && TreeIs(memory.role, parent)
      requires parentMap == Addr(parent.pgd) && parentStack == Addr(parent.stack) && TableOk()
      modifies memory, memory.ram
      ensures TableOk() && pc.Abs() == old(pc.Abs())
      ensures ok <==> |old(memory.free)| >= 5
      ensures ok ==>
          memory.Valid() && CanFork(old(memory.State()), parent)
          && memory.State() == ForkMem(old(memory.State()), parent, pid, trapReturn)
      ensures ok ==> stack == Addr(old(memory.free)[0]) && pageMap == Addr(old(memory.free)[1])
    {
      hide PhysicalMemory.Valid, Addr, TreeIs, ForkedMap, Frame, IsPage, WithFrames, TableOk, ProcessControl.Abs,
           System.Owns;
      ghost var m := memory.State();
      ok, stack, pageMap := AllocAndCopy(parentMap, parent, trapReturn);
      if ok {
        FramesReady(m, parent, trapReturn);
        CopyFrame(stack, parentStack, pid);
      }
    }

    /** The unused slot fork will fill. */
    method UnusedSlot() returns (p: Process?)
      requires TableOk() && I.Inv(pc.Abs()) && Machine.FindUnused(pc.Abs().procs) < NUM_PROC
      ensures p != null && pc.Member(p) && p in pc.table && !pc.Listed(p) && ProcOf(p) == NO_PROC
          && p != pc.currentProcess
      ensures p.slot == Machine.FindUnused(pc.Abs().procs)
    {
      p := pc.FindUnused();
      pc.UnusedIsFree(p);
    }

    /** The pages of the current process, as its structure holds them. */
    lemma CurrentPointers()
      requires TableOk() && Slots(pc.Abs()) && Current(pc.Abs()).pages.Pages?
      ensures var p, g := pc.currentProcess, Current(pc.Abs()).pages;
              p.pages == g && p.stack == Addr(g.stack) && p.pageMap == Addr(g.pgd)
      ensures pc.pidNum == pc.Abs().nextPid
    {
      pc.CurrentIsMember();
      PointersAt(pc.currentProcess);
    }

    /** The structure of the child, and its place on the ready list. */
    method StartChild(process: Process, stack: Word, pageMap: Word, ghost g: Pages)
      requires g.Pages? && TableOk() && memory.Valid() && stack == Addr(g.stack) && pageMap == Addr(g.pgd)
          && g.stack < NPAGES && g.pgd < NPAGES
      requires pc.Member(process) && process in pc.table && !pc.Listed(process) && ProcOf(process) == NO_PROC
          && process != pc.currentProcess
      modifies pc`pidNum, pc`free, process, pc.readyList, pc.table`next
      ensures TableOk() && memory.Valid() && memory.State() == old(memory.State())
      ensures var s := old(pc.Abs());
              Slots(s) && pc.Abs() == Set(s, process.slot, Proc(s.nextPid, 0, Ready, User, g)).(
                                        nextPid := s.nextPid + 1, ready := s.ready + [process.slot],
                                            free := s.free - PageSet(g))
    {
      hide pc.Linked, PhysicalMemory.Valid, ProcessControl.Abs;
      pc.StartProcess(process, stack, pageMap, g);
      forall i | 0 <= i < |pc.table| ensures PointersOf(pc.table[i]) {
        assert pc.table[i] != process ==> old(PointersOf(pc.table[i]));
      }
    }

    /**
     fork, with the result stored for the parent as system_call does. It halts, as the kernel does,
     when fewer than five pages are left.
     */
    method Fork(trapReturn: Word) returns (pid: int, halted: bool)
      requires Valid() && UserRuns(pc.Abs()) && Machine.FindUnused(pc.Abs().procs) < NUM_PROC
      modifies pc, pc.table, pc.readyList, memory, memory.ram
      ensures halted <==> |old(memory.free)| < 5
      ensures !halted ==>
          Valid() && CanStep(old(Abs()), ForkCall(trapReturn)) && Abs() == DoFork(old(Abs()), trapReturn)
      ensures !halted ==> pid == old(pc.pidNum)
    {
      hide TableOk, Coupled, DoFork, PhysicalMemory.Valid, System.Owns, TreeIs, ForkMem, I.Inv, ProcessControl.Abs,
           CanFork, FindUnused;
      ghost var y := Abs();
      ParentOwns(y);
      CurrentPointers();
      var process := UnusedSlot();
      var current := pc.currentProcess;
      pid := pc.pidNum;
      var ok, stack, pageMap := ForkMemory(current.pageMap, current.stack, current.pages, pid % WORD_LIMIT, trapReturn);
      halted := !ok;
      if ok {
        ForkIs(y, trapReturn);
        StartChild(process, stack, pageMap, NextPages(y.m));
      }
    }
  }

  lemma FramesReady(m: Mem, parent: Pages, trapReturn: Word)
    requires CanFork(m, parent)
    ensures var s := ForkedMap(m, parent, trapReturn);
            && Paging.Inv(s) && m.free[0] < NPAGES && m.free[0] != parent.stack && s.role[m.free[0]] == Held
            && s.role[parent.stack] == Held
            && IsPage(Addr(m.free[0])) && Frame(Addr(m.free[0])) == m.free[0]
            && IsPage(Addr(parent.stack)) && Frame(Addr(parent.stack)) == parent.stack
  {
    hide FreeLinks, Children, Parents, Addr, TreeIs, ForkedMap, FreshStack;
    ForkedMapIs(m, parent, trapReturn);
    assert m.role[m.free[0]] == Free;
    AddrFrame(parent.stack);
    AddrFrame(m.free[0]);
  }

  /** Everything copy_uvm needs, and when it succeeds, after alloc_new_process. */
  lemma CopyReady(m: Mem, parent: Pages, trapReturn: Word)
    requires CanAlloc(m, parent)
    ensures var s, root := AllocProcess(m, trapReturn), m.free[1];
            && root < NPAGES && IsPage(Addr(root)) && Frame(Addr(root)) == root && Addr(root) != 0
            && IsPage(Addr(parent.pgd)) && Frame(Addr(parent.pgd)) == parent.pgd
            && CanCopy(s, root, parent.pgd)
            && (UserMaps.CopyUvm(s, root, parent.pgd, PAGE_WORDS).0 <==> |m.free| >= 5)
  {
    hide FreeLinks, Children, Parents, Addr, TreeIs, AllocProcess, UserMaps.CopyUvm, CanCopy, FreshRoot, Walk,
         EnoughPages;
    ForkReady(m, parent, trapReturn);
    assert m.free[1] < NPAGES;
    AddrFrame(parent.pgd);
    AddrFrame(m.free[1]);
    CopyUvmOutcome(AllocProcess(m, trapReturn), m.free[1], parent.pgd, PAGE_WORDS);
  }

  lemma ParentOwns(y: Sys)
    requires Coupled(y) && UserRuns(y.k)
    ensures var g := Current(y.k).pages; I.Inv(y.k) && g.Pages? && System.Owns(y.m.role, g) && TreeIs(y.m.role, g)
  {
    hide I.Inv, FreeList, Children, Parents, System.Owns, TreeIs;
    CurrentOwns(y);
  }

  /** The step fork takes, part by part. */
  lemma ForkIs(y: Sys, trapReturn: Word)
    requires Coupled(y) && UserRuns(y.k) && Machine.FindUnused(y.k.procs) < NUM_PROC && |y.m.free| >= 5
    ensures CanStep(y, ForkCall(trapReturn)) && CanFork(y.m, Current(y.k).pages) && Coupled(DoFork(y, trapReturn))
    ensures NextPages(y.m).stack < NPAGES && NextPages(y.m).pgd < NPAGES
    ensures DoFork(y, trapReturn) ==
      Sys(ForkProcess(y.k, NextPages(y.m)), ForkMem(y.m, Current(y.k).pages, Pid(y.k), trapReturn), y.heap)
  {
    hide I.Core, FreeLinks, NoDup, Children, Parents, System.Owns, TreeIs, R.PagesOk, AllOwn;
    CurrentOwns(y);
    NextPagesFree(y.m);
    assert Distinct(NextPages(y.m)) && PageSet(NextPages(y.m)) <= y.k.free;
    ForkCoupled(y, trapReturn);
  }

  lemma ForkCoupled(y: Sys, trapReturn: Word)
    requires Coupled(y) && CanStep(y, ForkCall(trapReturn))
    ensures Coupled(DoFork(y, trapReturn))
  {
    hide Coupled, DoFork, Forked, Kept;
    ForkStep(y, trapReturn);
  }

  /** The scheduler's side of reaping: slot i is cleared, its pages are free, and the caller leaves wait. */
  ghost function Forgotten(k: Kernel, i: nat, g: Pages): Kernel
    requires Slots(k)
  {
    if i < NUM_PROC then Return(Set(k, i, NO_PROC).(free := k.free + PageSet(g))) else k
  }

  /** The event a round of wait(pid) is: the call itself, or its continuation after a wake-up. */
  ghost predicate IsWaitRound(k: Kernel, e: Event, pid: int) {
    Slots(k) && Enabled(k, e) && k.current != 0 && (e == Wait(pid) || (e == Resume && Current(k).call == InWait(pid)))
  }

  /** Slot i holds a killed process that can be reaped: it is not running and owns its five pages. */
  ghost predicate CanReap(y: Sys, i: nat) {
    && Slots(y.k) && i < NUM_PROC && i != y.k.current && y.k.procs[i].pages.Pages?
    && Paging.Inv(y.m) && System.Owns(y.m.role, y.k.procs[i].pages) && TreeIs(y.m.role, y.k.procs[i].pages)
  }

  /** The caller's return from wait, with the process at position k of the kill list gone. */
  ghost function Reaping(y: Sys, k: nat): Sys
    requires k < |y.k.killed| && CanReap(y, y.k.killed[k])
  {
    Sys(Return(Reap(y.k, k)), ReapMem(y.m, y.k.procs[y.k.killed[k]].pages), y.heap)
  }

  lemma CanWait(y: Sys, e: Event, pid: int)
    requires Coupled(y) && IsWaitRound(y.k, e, pid)
    ensures CanDo(y, e) && I.Inv(y.k) && y.k.current != 0
    ensures L.Reaped(y.k, e).Slot? <==> FirstWaiter(y.k.procs, y.k.killed, pid) < |y.k.killed|
  {
    hide I.Inv;
  }

  lemma WaitFinds(y: Sys, e: Event, pid: int, k: nat)
    requires Coupled(y) && IsWaitRound(y.k, e, pid) && CanDo(y, e)
    requires k == FirstWaiter(y.k.procs, y.k.killed, pid) < |y.k.killed|
    ensures CanReap(y, y.k.killed[k]) && DoEvent(y, e) == Reaping(y, k)
  {
    hide FreeList, Children, Parents, R.PagesOk, HeapRoles, Owns, TreeIs, I.Located, I.Pids, I.Waits, I.NoLostWakeup,
         Reap, SleepOn, FirstWaiter;
    ReapedOwns(y, e);
  }

  lemma WaitFindsNone(y: Sys, e: Event, pid: int)
    requires Coupled(y) && IsWaitRound(y.k, e, pid) && CanDo(y, e)
    requires FirstWaiter(y.k.procs, y.k.killed, pid) == |y.k.killed|
    ensures DoEvent(y, e) == y.(k := SleepOn(y.k, WAIT_CHILD, InWait(pid)))
  {
    hide FreeList, Children, Parents, R.PagesOk, HeapRoles, Owns, TreeIs, I.Core, SleepOn, FirstWaiter;
  }
}
