/** setup_uvm and copy_uvm: giving a map its user page, with rollback when memory runs out. */
module UserMaps {
  import opened Words
  import opened Paging
  import opened Walks
  import opened Access
  import opened Teardown

  /** copy_uvm can start: dst has no user page yet, and src has one if it has tables for it. */
  ghost predicate CanCopy(s: Mem, dst: nat, src: nat) {
    && Inv(s) && dst < NPAGES && src < NPAGES && dst != src && s.role[dst].Pgd? && s.role[src].Pgd?
    && Walk(s.pages, dst, USER_VA).None?
    && (PmdFor(s, src, USER_VA).Some? ==> Walk(s.pages, src, USER_VA).Some?)
  }

  lemma ReadyToMap(s: Mem, d: nat)
    requires Inv(s) && s.free != [] && d < NPAGES && s.role[d].Pgd?
    ensures s.free[0] < NPAGES && Inv(TakeZeroed(s)) && TakeZeroed(s).role[d].Pgd?
  {
    TakeZeroedInv(s);
  }

  /** The memory after a fresh page was taken, cleared and mapped (or not) at 0x400000. */
  ghost function WithUserPage(s: Mem, d: nat): Mem
    requires Inv(s) && s.free != [] && d < NPAGES && s.role[d].Pgd?
  {
    ReadyToMap(s, d);
    UvmAttributes();
    hide Inv, AttrOk;
    MapPage(TakeZeroed(s), d, USER_VA, s.free[0], UVM_ATTR)
  }

  /** Enough free pages for the user page and the tables on its path. */
  ghost predicate EnoughPages(s: Mem, d: nat) {
    |s.free| >= 1 + MissingTables(s, d, USER_VA)
  }

  lemma WithUserPageFacts(s: Mem, d: nat)
    requires Inv(s) && s.free != [] && d < NPAGES && s.role[d].Pgd? && Walk(s.pages, d, USER_VA).None?
    ensures var s2, t := WithUserPage(s, d), s.free[0];
            && Inv(s2) && s2.role[d].Pgd?
            && (EnoughPages(s, d) ==> AfterFree(s2.role, d) == AfterFree(s.role, d) && s2.role[t].Block?
                                      && s2.free == s.free[1 + MissingTables(s, d, USER_VA)..])
            && (!EnoughPages(s, d) ==> s2.role[t] == Held && AfterFree(s2.role[t := Free], d) == AfterFree(s.role, d))
  {
    hide FreeLinks, NoDup, Children, Parents, MapPage, AfterFree, MissingTables, Walk, MapPageOk;
    MapUserPage(s, d);
  }

  /** Translations after the user page was mapped: only dst's block at 0x400000 changed. */
  lemma WithUserPageWalks(s: Mem, d: nat, r: nat, va: nat)
    requires Inv(s) && s.free != [] && d < NPAGES && s.role[d].Pgd? && Walk(s.pages, d, USER_VA).None?
    requires r < NPAGES && s.role[r].Pgd?
    ensures Walk(WithUserPage(s, d).pages, r, va) ==
            if EnoughPages(s, d) && r == d && BlockOf(va) == BlockOf(USER_VA)
                then Some(s.free[0] * PAGE_SIZE + va % PAGE_SIZE)
            else Walk(s.pages, r, va)
  {
    hide FreeLinks, NoDup, Children, Parents, MapPage, AfterFree, MissingTables, Walk, MapPageOk, BlockOf;
    MapUserPage(s, d);
    TakeZeroedWalks(s, r, va);
    MapPageWalks(TakeZeroed(s), d, USER_VA, s.free[0], UVM_ATTR, r, va);
  }

  /** The entry of 0x400000 is the new page's address with the attributes of a user page. */
  lemma WithUserPageLeaf(s: Mem, d: nat)
    requires Inv(s) && s.free != [] && d < NPAGES && s.role[d].Pgd? && Walk(s.pages, d, USER_VA).None?
    requires EnoughPages(s, d)
    ensures Shape(WithUserPage(s, d))
    ensures LeafEntry(WithUserPage(s, d), d, USER_VA) == Some(s.free[0] * PAGE_SIZE + UVM_ATTR)
  {
    hide FreeLinks, NoDup, Children, Parents, MapPage, AfterFree, Walk, L0, L1, L2, PmdFor, LeafEntry;
    ReadyToMap(s, d);
    UvmAttributes();
    TakeZeroedInv(s);
    TakeZeroedWalks(s, d, USER_VA);
    MapPageLeaf(TakeZeroed(s), d, USER_VA, s.free[0], UVM_ATTR);
  }

  /** What is written to the new page itself does not matter to the entry. */
  lemma LeafKept(s: Mem, d: nat, t: nat, contents: Page)
    requires Inv(s) && d < NPAGES && s.role[d].Pgd? && t < NPAGES && s.role[t].Block?
    ensures Shape(s.(pages := s.pages[t := contents]))
    ensures LeafEntry(s.(pages := s.pages[t := contents]), d, USER_VA) == LeafEntry(s, d, USER_VA)
  {
    hide FreeLinks, NoDup, Children, Parents, L0, L1, L2;
    TablesSame(s, s.pages[t := contents], d, USER_VA);
    PmdForIs(s, d, USER_VA);
  }

  /** Undo: the page that could not be mapped goes back, then the map is freed. */
  ghost function RollBack(s: Mem, d: nat): Mem
    requires Inv(s) && s.free != [] && d < NPAGES && s.role[d].Pgd? && Walk(s.pages, d, USER_VA).None?
  {
    WithUserPageFacts(s, d);
    var s2, t := WithUserPage(s, d), s.free[0];
    if EnoughPages(s, d) then FreeVm(s2, d)
    else
      HeldPush(s2, t);
      FreeVm(Push(s2, t), d)
  }

  /** The memory after copy_uvm(dst, src, n words) and its result. */
  ghost function CopyUvm(s: Mem, dst: nat, src: nat, n: nat): (bool, Mem)
    requires CanCopy(s, dst, src) && n <= PAGE_WORDS
  {
    if s.free == [] then (false, s)
    else if !EnoughPages(s, dst) || PmdFor(s, src, USER_VA).None? then (false, RollBack(s, dst))
    else
      SourcePage(s, dst, src);
      WithUserPageFacts(s, dst);
      (true, Copied(WithUserPage(s, dst), s.free[0], BlockFrame(s.pages, src, USER_VA).value, n))
  }

  ghost function Copied(s: Mem, to: nat, from: nat, n: nat): Mem
    requires Shape(s) && to < NPAGES && from < NPAGES && n <= PAGE_WORDS
  {
    s.(pages := s.pages[to := s.pages[from][..n] + s.pages[to][n..]])
  }

  /** Mapping dst's user page leaves the way to src's alone. */
  lemma SourcePath(s: Mem, dst: nat, src: nat)
    requires CanCopy(s, dst, src) && s.free != []
    ensures var s2 := WithUserPage(s, dst);
            && PmdFor(s2, src, USER_VA) == PmdFor(s, src, USER_VA)
            && BlockFrame(s2.pages, src, USER_VA) == BlockFrame(s.pages, src, USER_VA)
  {
    hide FreeLinks, NoDup, Children, Parents, MapPage, Walk, L0, L1, L2, MapPageOk, BlockFrame, PmdFor, MissingTables,
         BlockOf;
    MapUserPage(s, dst);
    UvmAttributes();
    TakeZeroedWalks(s, src, USER_VA);
    WalkIsBlockFrame(TakeZeroed(s), dst, USER_VA);
    MapPageKeepsPath(TakeZeroed(s), dst, USER_VA, s.free[0], UVM_ATTR, src, USER_VA);
    MapPageFrames(TakeZeroed(s), dst, USER_VA, s.free[0], UVM_ATTR, src, USER_VA);
  }

  /** The source's user page: a leaf of the source map, untouched by mapping dst's. */
  lemma SourcePage(s: Mem, dst: nat, src: nat)
    requires CanCopy(s, dst, src) && s.free != [] && PmdFor(s, src, USER_VA).Some?
    ensures var b := BlockFrame(s.pages, src, USER_VA); var s2 := WithUserPage(s, dst);
            && b.Some? && b.value < NPAGES && s.role[b.value].Block?
            && Shape(s2) && s2.pages[b.value] == s.pages[b.value]
  {
    hide FreeLinks, NoDup, Children, Parents, MapPage, Walk, L0, L1, L2;
    Indices(USER_VA);
    WalkIsBlockFrame(s, src, USER_VA);
    PmdForIs(s, src, USER_VA);
    NextIs(s, PmdFor(s, src, USER_VA).value, L2(USER_VA));
    TakeZeroedInv(s);
    var b := BlockFrame(s.pages, src, USER_VA).value;
    MapPageContents(TakeZeroed(s), dst, USER_VA, s.free[0], UVM_ATTR, b);
  }

  lemma RollBackFacts(s: Mem, d: nat)
    requires Inv(s) && s.free != [] && d < NPAGES && s.role[d].Pgd? && Walk(s.pages, d, USER_VA).None?
    ensures Inv(RollBack(s, d)) && RollBack(s, d).role == AfterFree(s.role, d)
  {
    hide FreeLinks, NoDup, Children, Parents, MapPage, AfterFree, Walk, FreeVm, WithUserPage, EnoughPages;
    WithUserPageFacts(s, d);
    var s2, t := WithUserPage(s, d), s.free[0];
    if EnoughPages(s, d) {
      FreeVmDone(s2, d);
    } else {
      HeldPush(s2, t);
      FreeVmDone(Push(s2, t), d);
    }
  }

  /**
   copy_uvm: it succeeds exactly when a page and the missing tables can be had and the source has its
   tables. If no page is left nothing changes. If it gives up later, exactly the pages of dst and
   nothing else joined the free list. On success the new page starts with the source's words.
   */
  lemma CopyUvmOutcome(s: Mem, dst: nat, src: nat, n: nat)
    requires CanCopy(s, dst, src) && n <= PAGE_WORDS
    ensures var (ok, s') := CopyUvm(s, dst, src, n);
            && Inv(s')
            && (ok <==> EnoughPages(s, dst) && PmdFor(s, src, USER_VA).Some?)
            && (!ok && s.free == [] ==> s' == s)
            && (!ok && s.free != [] ==> s'.role == AfterFree(s.role, dst))
            && (ok ==> s'.free == s.free[1 + MissingTables(s, dst, USER_VA)..])
    ensures var (ok, s') := CopyUvm(s, dst, src, n);
            ok ==> var b := BlockFrame(s.pages, src, USER_VA);
                   b.Some? && b.value < NPAGES && s'.pages[s.free[0]] == s.pages[b.value][..n] + Zeros()[n..]
  {
    hide FreeLinks, NoDup, Children, Parents, MapPage, AfterFree, Walk, RollBack, EnoughPages, WithUserPage,
         MissingTables;
    if s.free != [] {
      RollBackFacts(s, dst);
      WithUserPageFacts(s, dst);
      if EnoughPages(s, dst) && PmdFor(s, src, USER_VA).Some? {
        SourcePage(s, dst, src);
        var s2, t := WithUserPage(s, dst), s.free[0];
        WriteData(s2, t, CopyUvm(s, dst, src, n).1.pages[t]);
        FreshPageIsZero(s, dst);
      }
    } else {
      NeedsAPage(s, dst);
    }
  }

  lemma NeedsAPage(s: Mem, d: nat)
    ensures EnoughPages(s, d) ==> s.free != []
  {
  }

  lemma FreshPageIsZero(s: Mem, d: nat)
    requires Inv(s) && s.free != [] && d < NPAGES && s.role[d].Pgd?
    ensures Shape(WithUserPage(s, d)) && WithUserPage(s, d).pages[s.free[0]] == Zeros()
  {
    hide FreeLinks, NoDup, Children, Parents, MapPage;
    TakeZeroedInv(s);
    UvmAttributes();
    MapPageContents(TakeZeroed(s), d, USER_VA, s.free[0], UVM_ATTR, s.free[0]);
  }

  /** On success dst maps the new page at 0x400000 and no other translation of any map changes. */
  lemma CopyUvmWalks(s: Mem, dst: nat, src: nat, n: nat, r: nat, va: nat)
    requires CanCopy(s, dst, src) && n <= PAGE_WORDS && CopyUvm(s, dst, src, n).0
    requires r < NPAGES && s.role[r].Pgd?
    ensures Walk(CopyUvm(s, dst, src, n).1.pages, r, va) ==
            if r == dst && BlockOf(va) == BlockOf(USER_VA) then Some(s.free[0] * PAGE_SIZE + va % PAGE_SIZE)
            else Walk(s.pages, r, va)
  {
    hide FreeLinks, NoDup, Children, Parents, MapPage, AfterFree, Walk, RollBack, EnoughPages, WithUserPage,
         MissingTables, BlockOf;
    NeedsAPage(s, dst);
    WithUserPageFacts(s, dst);
    WithUserPageWalks(s, dst, r, va);
    SourcePage(s, dst, src);
    var s2, t := WithUserPage(s, dst), s.free[0];
    var s' := CopyUvm(s, dst, src, n).1;
    WriteData(s2, t, s'.pages[t]);
    RootKept(s, dst, r);
    TablesSame(s2, s'.pages, r, va);
    WalkIsBlockFrame(s2, r, va);
    WalkIsBlockFrame(s', r, va);
  }

  /** On success the entry of 0x400000 in dst carries the attributes of a user page. */
  lemma CopyUvmLeaf(s: Mem, dst: nat, src: nat, n: nat)
    requires CanCopy(s, dst, src) && n <= PAGE_WORDS && CopyUvm(s, dst, src, n).0
    ensures Shape(CopyUvm(s, dst, src, n).1)
    ensures LeafEntry(CopyUvm(s, dst, src, n).1, dst, USER_VA) == Some(s.free[0] * PAGE_SIZE + UVM_ATTR)
  {
    hide FreeLinks, NoDup, Children, Parents, MapPage, AfterFree, Walk, RollBack, EnoughPages, WithUserPage,
         MissingTables, LeafEntry, BlockFrame, PmdFor;
    NeedsAPage(s, dst);
    WithUserPageFacts(s, dst);
    WithUserPageLeaf(s, dst);
    SourcePage(s, dst, src);
    LeafKept(WithUserPage(s, dst), dst, s.free[0], CopyUvm(s, dst, src, n).1.pages[s.free[0]]);
  }

  lemma RootKept(s: Mem, d: nat, r: nat)
    requires Inv(s) && s.free != [] && d < NPAGES && s.role[d].Pgd? && Walk(s.pages, d, USER_VA).None?
    requires r < NPAGES && s.role[r] != Free
    ensures Shape(WithUserPage(s, d)) && WithUserPage(s, d).role[r] == s.role[r]
  {
    hide FreeLinks, NoDup, Children, Parents, MapPage, Walk, MapPageOk, BlockFrame, MissingTables;
    MapUserPage(s, d);
    UvmAttributes();
    WalkIsBlockFrame(TakeZeroed(s), d, USER_VA);
    MapPageInv(TakeZeroed(s), d, USER_VA, s.free[0], UVM_ATTR);
  }

  /** What opening and reading the program file gives: no such file, or the words read into the page. */
  datatype Program = NoFile | Read(words: seq<Word>, complete: bool)

  ghost function Loaded(s: Mem, t: nat, words: seq<Word>): Mem
    requires Shape(s) && t < NPAGES && |words| <= PAGE_WORDS
  {
    s.(pages := s.pages[t := words + s.pages[t][|words|..]])
  }

  /** The memory after setup_uvm for the map d and its result. */
  ghost function SetupUvm(s: Mem, d: nat, program: Program): (bool, Mem)
    requires Inv(s) && d < NPAGES && s.role[d].Pgd? && Walk(s.pages, d, USER_VA).None?
    requires program.Read? ==> |program.words| <= PAGE_WORDS
  {
    if s.free == [] then (false, s)
    else if !EnoughPages(s, d) || program.NoFile? then (false, RollBack(s, d))
    else
      WithUserPageFacts(s, d);
      LoadedInv(WithUserPage(s, d), s.free[0], program.words);
      var s' := Loaded(WithUserPage(s, d), s.free[0], program.words);
      if program.complete then (true, s') else (false, FreeVm(s', d))
  }

  lemma LoadedInv(s: Mem, t: nat, words: seq<Word>)
    requires Inv(s) && t < NPAGES && s.role[t].Block? && |words| <= PAGE_WORDS
    ensures Inv(Loaded(s, t, words))
  {
    WriteData(s, t, words + s.pages[t][|words|..]);
  }

  /** setup_uvm: the same rollback guarantee, also when the file is missing or comes up short. */
  lemma SetupUvmOutcome(s: Mem, d: nat, program: Program)
    requires Inv(s) && d < NPAGES && s.role[d].Pgd? && Walk(s.pages, d, USER_VA).None?
    requires program.Read? ==> |program.words| <= PAGE_WORDS
    ensures var (ok, s') := SetupUvm(s, d, program);
            && Inv(s')
            && (ok <==> EnoughPages(s, d) && program.Read? && program.complete)
            && (!ok && s.free == [] ==> s' == s)
            && (!ok && s.free != [] ==> s'.role == AfterFree(s.role, d))
            && (ok ==> s'.free == s.free[1 + MissingTables(s, d, USER_VA)..]
                       && s'.pages[s.free[0]] == program.words + Zeros()[|program.words|..])
  {
    hide FreeLinks, NoDup, Children, Parents, MapPage, AfterFree, Walk, RollBack, EnoughPages, WithUserPage,
         MissingTables, FreeVm;
    if s.free == [] {
      NeedsAPage(s, d);
    } else {
      RollBackFacts(s, d);
      WithUserPageFacts(s, d);
      if EnoughPages(s, d) && program.Read? {
        LoadedInv(WithUserPage(s, d), s.free[0], program.words);
        FreshPageIsZero(s, d);
        FreeVmDone(Loaded(WithUserPage(s, d), s.free[0], program.words), d);
      }
    }
  }

  /** The same for setup_uvm. */
  lemma SetupUvmLeaf(s: Mem, d: nat, program: Program)
    requires Inv(s) && d < NPAGES && s.role[d].Pgd? && Walk(s.pages, d, USER_VA).None?
    requires program.Read? ==> |program.words| <= PAGE_WORDS
    requires SetupUvm(s, d, program).0
    ensures Shape(SetupUvm(s, d, program).1)
    ensures LeafEntry(SetupUvm(s, d, program).1, d, USER_VA) == Some(s.free[0] * PAGE_SIZE + UVM_ATTR)
  {
    hide FreeLinks, NoDup, Children, Parents, MapPage, AfterFree, Walk, RollBack, EnoughPages, WithUserPage,
         MissingTables, FreeVm, LeafEntry;
    WithUserPageFacts(s, d);
    WithUserPageLeaf(s, d);
    LeafKept(WithUserPage(s, d), d, s.free[0], SetupUvm(s, d, program).1.pages[s.free[0]]);
  }
}
