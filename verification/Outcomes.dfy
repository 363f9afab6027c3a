/** What single steps of the joint system leave behind: exec, a trap, a user store, and start-up. */
module Outcomes {
  import opened Words
  import opened Paging
  import Walks
  import opened Access
  import opened Teardown
  import opened UserMaps
  import opened Machine
  import opened System
  import opened SystemRuns
  import I = MachineInv
  import R = MachineRuns

  /** What user code of the map in page root reads at va, if it may. */
  ghost function UserLoad(m: Mem, root: nat, va: nat): Option<Word> {
    var pa := UserAccess(m.pages, root, va);
    if pa.Some? && pa.value / PAGE_SIZE < |m.pages| then
      Some(m.pages[pa.value / PAGE_SIZE][pa.value % PAGE_SIZE / 8])
    else None
  }

  /** User code of process i reads its user page at 0x400000 to 0x5fffff, and nothing elsewhere. */
  lemma UserLoadIs(y: Sys, i: nat, va: nat)
    requires Coupled(y) && InUse(y.k, i)
    ensures var g := y.k.procs[i].pages;
            && g.user < |y.m.pages|
            && UserLoad(y.m, g.pgd, va) ==
               if BlockOf(va) == BlockOf(USER_VA) then Some(y.m.pages[g.user][va % PAGE_SIZE / 8]) else None
  {
    hide FreeList, Children, Parents, I.Inv, R.PagesOk, HeapRoles, AllOwn, Walks.Walk, UserAccess, BlockOf;
    UserWalk(y, i, va);
    StoreAddress(y.k.procs[i].pages.user, va);
  }

  lemma UserBlock(va: nat)
    requires USER_VA <= va < USER_VA + PAGE_SIZE
    ensures BlockOf(va) == BlockOf(USER_VA) && va % PAGE_SIZE == va - USER_VA
  {
    DivUnique(va, PAGE_SIZE, 2, va - USER_VA);
  }

  /** Scheduler state and every other process are as before, and so is every page but the two of the running process. */
  ghost predicate OnlyOwnPages(y: Sys, y': Sys) {
    && Slots(y.k) && y'.k == y.k && y'.heap == y.heap && OnlyWrites(y.m, y'.m, Current(y.k).pages)
    && forall j: nat :: InUse(y.k, j) && j != y.k.current ==> Kept(y, y', j)
  }

  // exec

  /**
   The program runs in its own page: user code of the process reads the image word by word from
   0x400000 on, its frame starts it there with the stack at the end of that page and all other
   registers zero, and the kernel stack below the frame is as before.
   */
  ghost predicate Executed(y: Sys, y': Sys, image: Page) {
    && OnlyOwnPages(y, y')
    && Current(y.k).pages.Pages?
    && var g := Current(y.k).pages;
       && g.user < NPAGES && g.stack < NPAGES
       && y'.m.pages[g.user] == image
       && (forall va: nat :: USER_VA <= va < USER_VA + PAGE_SIZE ==>
             UserLoad(y'.m, g.pgd, va) == Some(image[(va - USER_VA) / 8]))
       && y'.m.pages[g.stack][..FRAME] == y.m.pages[g.stack][..FRAME]
       && StartFrame(y'.m.pages[g.stack][FRAME..])
  }

  /** elr is 0x400000, sp_el0 is 0x600000, and every other word is zero. */
  ghost predicate StartFrame(frame: seq<Word>) {
    |frame| == 36 &&
    forall k :: 0 <= k < |frame| ==> frame[k] == if k == 34 then 0x40_0000 else if k == 31 then 0x60_0000 else 0
  }

  lemma ExecOutcome(y: Sys, image: Page)
    requires Coupled(y) && CanStep(y, Load(image))
    ensures Executed(y, Next(y, Load(image)), image)
  {
    hide Coupled, CanStep, Next, Kept, UserLoad, Executed;
    NextCoupled(y, Load(image));
    LoadWrites(y, image);
    var y' := Next(y, Load(image));
    forall va: nat | USER_VA <= va < USER_VA + PAGE_SIZE
      ensures UserLoad(y'.m, Current(y.k).pages.pgd, va) == Some(image[(va - USER_VA) / 8])
    {
      UserBlock(va);
      UserLoadIs(y', y.k.current, va);
    }
    ExecutedIs(y, y', image);
  }

  /** What LoadProgram writes. */
  ghost predicate ImageLoaded(y: Sys, y': Sys, image: Page) {
    && Slots(y.k) && y'.k == y.k && y'.heap == y.heap && OnlyWrites(y.m, y'.m, Current(y.k).pages)
    && InUse(y'.k, y.k.current)
    && var g := Current(y.k).pages;
       && g.user < NPAGES && g.stack < NPAGES
       && y'.m.pages[g.user] == image
       && y'.m.pages[g.stack] == SetFrame(y.m.pages[g.stack], NewFrame())
  }

  lemma LoadWrites(y: Sys, image: Page)
    requires Coupled(y) && CanStep(y, Load(image))
    ensures ImageLoaded(y, Next(y, Load(image)), image)
    ensures forall j: nat :: InUse(y.k, j) && j != y.k.current ==> !Concerns(y, Load(image), j)
  {
    hide FreeList, Children, Parents, I.Inv, R.PagesOk, HeapRoles, AllOwn, SetFrame, NewFrame, OnlyWrites, Mapped;
    CurrentOwns(y);
    LoadProgramWrites(y.m, Current(y.k).pages, image);
  }

  lemma ExecutedIs(y: Sys, y': Sys, image: Page)
    requires ImageLoaded(y, y', image)
    requires forall j: nat :: InUse(y.k, j) && j != y.k.current ==> Kept(y, y', j)
    requires forall va: nat :: USER_VA <= va < USER_VA + PAGE_SIZE ==>
      UserLoad(y'.m, Current(y.k).pages.pgd, va) == Some(image[(va - USER_VA) / 8])
    ensures Executed(y, y', image)
  {
    hide Kept, UserLoad;
  }

  // Traps and stores

  /** A trap leaves exactly the given frame at the top of the running process's stack. */
  ghost predicate Entered(y: Sys, y': Sys, frame: TrapFrame) {
    && OnlyOwnPages(y, y')
    && Current(y.k).pages.Pages?
    && var g := Current(y.k).pages;
       && g.user < NPAGES && g.stack < NPAGES
       && y'.m.pages[g.user] == y.m.pages[g.user]
       && y'.m.pages[g.stack][..FRAME] == y.m.pages[g.stack][..FRAME]
       && forall k :: 0 <= k < FRAME_WORDS ==> y'.m.pages[g.stack][FRAME + k] == frame[k]
  }

  lemma EnterOutcome(y: Sys, frame: TrapFrame)
    requires Coupled(y) && CanStep(y, Enter(frame))
    ensures Entered(y, Next(y, Enter(frame)), frame)
  {
    hide Coupled, CanStep, Next, Kept, Entered;
    NextCoupled(y, Enter(frame));
    FrameWrites(y, frame);
    EnteredIs(y, Next(y, Enter(frame)), frame);
  }

  ghost predicate FrameWritten(y: Sys, y': Sys, frame: TrapFrame) {
    && Slots(y.k) && y'.k == y.k && y'.heap == y.heap && OnlyWrites(y.m, y'.m, Current(y.k).pages)
    && var g := Current(y.k).pages;
       && g.user < NPAGES && g.stack < NPAGES && g.user != g.stack
       && y'.m.pages == y.m.pages[g.stack := SetFrame(y.m.pages[g.stack], frame)]
  }

  lemma FrameWrites(y: Sys, frame: TrapFrame)
    requires Coupled(y) && CanStep(y, Enter(frame))
    ensures FrameWritten(y, Next(y, Enter(frame)), frame)
    ensures forall j: nat :: InUse(y.k, j) && j != y.k.current ==> !Concerns(y, Enter(frame), j)
  {
    hide FreeList, Children, Parents, I.Inv, R.PagesOk, HeapRoles, AllOwn, SetFrame, OnlyWrites, Mapped;
    CurrentOwns(y);
    SaveFrameWrites(y.m, Current(y.k).pages, frame);
  }

  lemma EnteredIs(y: Sys, y': Sys, frame: TrapFrame)
    requires FrameWritten(y, y', frame)
    requires forall j: nat :: InUse(y.k, j) && j != y.k.current ==> Kept(y, y', j)
    ensures Entered(y, y', frame)
  {
    hide Kept;
  }

  /** A store of user code changes the word it addresses, and what user code reads at any other address stays. */
  lemma StoreOutcome(y: Sys, va: nat, w: Word, at: nat)
    requires Coupled(y) && CanStep(y, StoreWord(va, w))
    ensures var y' := Next(y, StoreWord(va, w));
            && Slots(y.k) && Current(y.k).pages.Pages?
            && var root := Current(y.k).pages.pgd;
               && UserLoad(y.m, root, va).Some?
               && UserLoad(y'.m, root, at) ==
                  if BlockOf(at) == BlockOf(va) && at % PAGE_SIZE / 8 == va % PAGE_SIZE / 8 then Some(w)
                  else UserLoad(y.m, root, at)
  {
    hide Coupled, CanStep, Next, Kept, UserLoad, BlockOf;
    NextCoupled(y, StoreWord(va, w));
    var y' := Next(y, StoreWord(va, w));
    StoreWrites(y, va, w);
    UserLoadIs(y, y.k.current, va);
    UserLoadIs(y, y.k.current, at);
    UserLoadIs(y', y.k.current, at);
  }

  lemma StoreWrites(y: Sys, va: nat, w: Word)
    requires Coupled(y) && CanStep(y, StoreWord(va, w))
    ensures Slots(y.k) && InUse(y.k, y.k.current) && Current(y.k).pages.user < |y.m.pages|
    ensures Next(y, StoreWord(va, w)).k == y.k && BlockOf(va) == BlockOf(USER_VA)
    ensures var user := Current(y.k).pages.user;
            Next(y, StoreWord(va, w)).m.pages == y.m.pages[user := y.m.pages[user][va % PAGE_SIZE / 8 := w]]
  {
    hide FreeList, Children, Parents, I.Inv, R.PagesOk, HeapRoles, AllOwn, BlockOf, Mapped, UserAccess;
    CurrentOwns(y);
    UserStoreWrites(y.m, Current(y.k).pages, va, w);
  }

  // Start-up

  /**
   After init_process, process 1 is ready; its user code reads the words of the program followed by
   zeros, and its stack page is zero but for the saved return address and the frame of a new process.
   */
  ghost predicate Booted(y: Sys, trapReturn: Word, words: seq<Word>) {
    && Slots(y.k) && y.k.current == 0 && y.k.ready == [1] && InUse(y.k, 1) && y.k.procs[1].state == Ready
    && var g := y.k.procs[1].pages;
       && g.stack < |y.m.pages|
       && (forall va: nat :: USER_VA <= va < USER_VA + PAGE_SIZE ==>
             UserLoad(y.m, g.pgd, va) == var k := (va - USER_VA) / 8; Some(if k < |words| then words[k] else 0))
       && forall k :: 0 <= k < PAGE_WORDS ==>
            y.m.pages[g.stack][k] ==
              if k == FRAME - 1 then trapReturn
              else if k == FRAME + 34 then 0x40_0000
              else if k == FRAME + 31 then 0x60_0000
              else 0
  }

  lemma BootOutcome(m: Mem, trapReturn: Word, words: seq<Word>)
    requires Blank(m) && |words| <= PAGE_WORDS
    ensures Booted(BootState(m, trapReturn, words), trapReturn, words)
  {
    hide Blank, Coupled, BootMem, BootKernel, UserLoad, FreshStack, NextPages;
    var y := BootState(m, trapReturn, words);
    BootCoupled(m, trapReturn, words);
    BootPagesAre(m, trapReturn, words);
    var g := y.k.procs[1].pages;
    forall va: nat | USER_VA <= va < USER_VA + PAGE_SIZE
      ensures UserLoad(y.m, g.pgd, va) == var k := (va - USER_VA) / 8; Some(if k < |words| then words[k] else 0)
    {
      UserBlock(va);
      UserLoadIs(y, 1, va);
      PaddedAt(words, (va - USER_VA) / 8);
    }
    FreshStackWords(trapReturn);
  }

  lemma BootPagesAre(m: Mem, trapReturn: Word, words: seq<Word>)
    requires Blank(m) && |words| <= PAGE_WORDS
    ensures var y := BootState(m, trapReturn, words);
            && Slots(y.k) && y.k.current == 0 && y.k.ready == [1] && InUse(y.k, 1) && y.k.procs[1].state == Ready
            && var g := y.k.procs[1].pages;
               && g.stack < |y.m.pages| && g.user < |y.m.pages| && y.m.pages[g.stack] == FreshStack(trapReturn)
               && y.m.pages[g.user] == words + Zeros()[|words|..]
  {
    hide FreeLinks, Children, Parents, BootMem, FreshStack;
    BootMemIs(m, trapReturn, words);
  }

  lemma PaddedAt(words: seq<Word>, k: nat)
    requires |words| <= PAGE_WORDS && k < PAGE_WORDS
    ensures (words + Zeros()[|words|..])[k] == if k < |words| then words[k] else 0
  {
  }

  lemma FreshStackWords(trapReturn: Word)
    ensures forall k :: 0 <= k < PAGE_WORDS ==>
      FreshStack(trapReturn)[k] ==
        if k == FRAME - 1 then trapReturn
        else if k == FRAME + 34 then 0x40_0000
        else if k == FRAME + 31 then 0x60_0000
        else 0
  {
  }
}
