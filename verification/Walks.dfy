/**
 The table walk of the architecture ("VMSAv8-64 translation table format descriptors", Arm ARM
 DDI 0487, section D5.3: 4 KB granule, 48-bit addresses), and what map_page and free_vm do to it.
 */
module Walks {
  import opened Words
  import opened Paging

  /** The word at a physical address, as the table walker reads it. */
  function ReadWord(pages: seq<Page>, pa: nat): nat {
    if pa / PAGE_SIZE < |pages| then pages[pa / PAGE_SIZE][pa % PAGE_SIZE / 8] else 0
  }

  /** The physical address va translates to from the table in page root, if any. */
  function Walk(pages: seq<Page>, root: nat, va: nat): Option<nat> {
    var d := ReadWord(pages, root * PAGE_SIZE + 8 * L0(va));
    if IsTableEntry(d) then Walk1(pages, PdeAddr(d), va) else None
  }

  function Walk1(pages: seq<Page>, table: nat, va: nat): Option<nat> {
    var d := ReadWord(pages, table + 8 * L1(va));
    if IsTableEntry(d) then Walk2(pages, PdeAddr(d), va)
    else if IsBlockEntry(d) then Some(GigabyteBase(d) + va % 0x4000_0000)
    else None
  }

  /** Bits 47..30: the output address of a 1 GB block descriptor. */
  function GigabyteBase(d: nat): nat { d / 0x4000_0000 % 0x4_0000 * 0x4000_0000 }

  function Walk2(pages: seq<Page>, table: nat, va: nat): Option<nat> {
    var d := ReadWord(pages, table + 8 * L2(va));
    if IsTableEntry(d) then Walk3(pages, PdeAddr(d), va)
    else if IsBlockEntry(d) then Some(PteAddr(d) + va % PAGE_SIZE)
    else None
  }

  function Walk3(pages: seq<Page>, table: nat, va: nat): Option<nat> {
    var d := ReadWord(pages, table + 8 * L3(va));
    if IsTableEntry(d) then Some(PdeAddr(d) + va % 0x1000) else None
  }

  lemma ReadTable(pages: seq<Page>, t: nat, i: nat)
    requires t < |pages| && i < TABLE_LEN
    ensures ReadWord(pages, t * PAGE_SIZE + 8 * i) == pages[t][i]
  {
    DivUnique(t * PAGE_SIZE + 8 * i, PAGE_SIZE, t, 8 * i);
  }

  /** The page below entry i of table p. */
  function Next(pages: seq<Page>, p: nat, i: nat): Option<nat> {
    if p < |pages| && i < TABLE_LEN && Present(pages[p][i]) then Some(Target(pages[p][i])) else None
  }

  function Below(pages: seq<Page>, p: Option<nat>, i: nat): Option<nat> {
    if p.Some? then Next(pages, p.value, i) else None
  }

  /** The page va's 2 MB block is mapped to, following entries from page to page. */
  function BlockFrame(pages: seq<Page>, root: nat, va: nat): Option<nat> {
    Below(pages, Below(pages, Next(pages, root, L0(va)), L1(va)), L2(va))
  }

  function AtOffset(t: Option<nat>, va: nat): Option<nat> {
    if t.Some? then Some(t.value * PAGE_SIZE + va % PAGE_SIZE) else None
  }

  lemma NextIs(s: Mem, p: nat, i: nat)
    requires Inv(s) && p < NPAGES && i < TABLE_LEN && IsTable(s.role[p])
    ensures var t := Next(s.pages, p, i);
            t.Some? ==> t.value < NPAGES && s.role[t.value] == ChildRole(s.role[p], p, i)
                        && Encodes(s.pages[p][i], t.value, !s.role[p].Pmd?)
  {
    hide PdeAddr, PteAddr;
    if Present(s.pages[p][i]) {
      assert ChildOk(s, p, i);
    }
  }

  /** On memory the kernel built, the architecture's walk is the walk from page to page. */
  lemma WalkIsBlockFrame(s: Mem, root: nat, va: nat)
    requires Inv(s) && root < NPAGES && s.role[root].Pgd?
    ensures Walk(s.pages, root, va) == AtOffset(BlockFrame(s.pages, root, va), va)
  {
    hide PdeAddr, PteAddr, L0, L1, L2, L3, ReadWord, IsTableEntry, IsBlockEntry, Present, Target, GigabyteBase,
         FreeLinks, NoDup;
    Indices(va);
    ReadTable(s.pages, root, L0(va));
    NextIs(s, root, L0(va));
    EntryKinds(s.pages[root][L0(va)]);
    var u := Next(s.pages, root, L0(va));
    if u.Some? {
      Walk1Is(s, u.value, va);
    }
  }

  lemma Walk1Is(s: Mem, u: nat, va: nat)
    requires Inv(s) && u < NPAGES && s.role[u].Pud?
    ensures Walk1(s.pages, u * PAGE_SIZE, va) == AtOffset(Below(s.pages, Next(s.pages, u, L1(va)), L2(va)), va)
  {
    hide PdeAddr, PteAddr, L0, L1, L2, L3, ReadWord, IsTableEntry, IsBlockEntry, Present, Target, GigabyteBase,
         FreeLinks, NoDup;
    Indices(va);
    ReadTable(s.pages, u, L1(va));
    NextIs(s, u, L1(va));
    EntryKinds(s.pages[u][L1(va)]);
    var d := Next(s.pages, u, L1(va));
    if d.Some? {
      Walk2Is(s, d.value, va);
    }
  }

  lemma Walk2Is(s: Mem, d: nat, va: nat)
    requires Inv(s) && d < NPAGES && s.role[d].Pmd?
    ensures Walk2(s.pages, d * PAGE_SIZE, va) == AtOffset(Next(s.pages, d, L2(va)), va)
  {
    hide PdeAddr, PteAddr, L0, L1, L2, L3, ReadWord, IsTableEntry, IsBlockEntry, Present, Target, GigabyteBase,
         FreeLinks, NoDup;
    Indices(va);
    ReadTable(s.pages, d, L2(va));
    NextIs(s, d, L2(va));
    EntryKinds(s.pages[d][L2(va)]);
  }

  lemma Indices(va: nat)
    ensures L0(va) < 512 && L1(va) < 512 && L2(va) < 512 && L3(va) < 512
  {
  }

  lemma LinkNext(s: Mem, p: nat, i: nat, attr: nat, q: nat, j: nat)
    requires Inv(s) && s.free != [] && p < NPAGES && i < TABLE_LEN && AttrOk(attr)
    requires s.role[p].Pgd? || s.role[p].Pud?
    requires q < NPAGES && j < TABLE_LEN
    ensures Next(Link(s, p, i, attr).pages, q, j) ==
            if q == p && j == i then Some(s.free[0]) else if q == s.free[0] then None else Next(s.pages, q, j)
  {
    hide PdeAddr, PteAddr, Entry, Addr, L0, L1, L2, L3;
    EntryRoundTrip(s.free[0], attr, true);
    var e := Entry(s.free[0], attr, TABLE_ENTRY);
    TargetOf(e, s.free[0], true);
    LinkEntryNext(s, p, i, e, q, j);
  }

  lemma LinkEntryNext(s: Mem, p: nat, i: nat, e: Word, q: nat, j: nat)
    requires Inv(s) && s.free != [] && p < NPAGES && i < TABLE_LEN
    requires (s.role[p].Pgd? || s.role[p].Pud?) && Present(e) && Target(e) == s.free[0]
    requires q < NPAGES && j < TABLE_LEN
    ensures Next(LinkEntry(s, p, i, e).pages, q, j) ==
            if q == p && j == i then Some(s.free[0]) else if q == s.free[0] then None else Next(s.pages, q, j)
  {
    hide PdeAddr, PteAddr, Entry, Addr, L0, L1, L2, L3, Target, Children, Parents, FreeLinks, NoDup;
  }

  /** Hanging a fresh, cleared table below an empty entry changes no translation of any map. */
  lemma LinkKeepsWalks(s: Mem, p: nat, i: nat, attr: nat, root: nat, va: nat)
    requires Inv(s) && s.free != [] && p < NPAGES && i < TABLE_LEN && AttrOk(attr)
    requires (s.role[p].Pgd? || s.role[p].Pud?) && !Present(s.pages[p][i])
    requires root < NPAGES && s.role[root].Pgd?
    ensures BlockFrame(Link(s, p, i, attr).pages, root, va) == BlockFrame(s.pages, root, va)
  {
    hide PdeAddr, PteAddr, Entry, Addr, L0, L1, L2, L3;
    Indices(va);
    LinkNext(s, p, i, attr, root, L0(va));
    LinkNext(s, p, i, attr, s.free[0], L1(va));
    LinkNext(s, p, i, attr, s.free[0], L2(va));
    NextIs(s, root, L0(va));
    var u := Next(s.pages, root, L0(va));
    if u.Some? {
      LinkNext(s, p, i, attr, u.value, L1(va));
      NextIs(s, u.value, L1(va));
      var d := Next(s.pages, u.value, L1(va));
      if d.Some? {
        LinkNext(s, p, i, attr, d.value, L2(va));
      }
    }
  }

  lemma SetBlockNext(s: Mem, d: nat, k: nat, t: nat, attr: nat, q: nat, j: nat)
    requires Shape(s) && d < NPAGES && k < TABLE_LEN && t < NPAGES && AttrOk(attr)
    requires q < NPAGES && j < TABLE_LEN
    ensures Next(SetBlock(s, d, k, t, attr).pages, q, j) ==
            if q == d && j == k then Some(t) else Next(s.pages, q, j)
  {
    hide PdeAddr, PteAddr, Entry, Addr, L0, L1, L2, L3;
    EntryRoundTrip(t, attr, false);
    TargetOf(Entry(t, attr, BLOCK_ENTRY), t, false);
  }

  /** Filling an empty entry of a level-2 table maps exactly the block that reaches that entry. */
  lemma SetBlockWalks(s: Mem, d: nat, k: nat, t: nat, attr: nat, root: nat, va: nat)
    requires Inv(s) && d < NPAGES && k < TABLE_LEN && t < NPAGES && AttrOk(attr)
    requires s.role[d].Pmd? && !Present(s.pages[d][k])
    requires root < NPAGES && s.role[root].Pgd?
    ensures BlockFrame(SetBlock(s, d, k, t, attr).pages, root, va) ==
            if Below(s.pages, Next(s.pages, root, L0(va)), L1(va)) == Some(d) && L2(va) == k then Some(t)
            else BlockFrame(s.pages, root, va)
  {
    hide PdeAddr, PteAddr, Entry, Addr, L0, L1, L2, L3;
    Indices(va);
    SetBlockNext(s, d, k, t, attr, root, L0(va));
    NextIs(s, root, L0(va));
    var u := Next(s.pages, root, L0(va));
    if u.Some? {
      SetBlockNext(s, d, k, t, attr, u.value, L1(va));
      NextIs(s, u.value, L1(va));
      var e := Next(s.pages, u.value, L1(va));
      if e.Some? {
        SetBlockNext(s, d, k, t, attr, e.value, L2(va));
      }
    }
  }

  // map_page

  /** The table below entry i of table p, taken from the free list when it is missing. */
  ghost function EnsureTable(s: Mem, p: nat, i: nat, attr: nat): Mem
    requires Inv(s) && p < NPAGES && i < TABLE_LEN && AttrOk(attr) && IsTable(s.role[p])
  {
    if Present(s.pages[p][i]) || s.free == [] then s else Link(s, p, i, attr)
  }

  lemma EnsureTableKeeps(s: Mem, p: nat, i: nat, attr: nat)
    requires Inv(s) && p < NPAGES && i < TABLE_LEN && AttrOk(attr) && (s.role[p].Pgd? || s.role[p].Pud?)
    ensures var s' := EnsureTable(s, p, i, attr);
            && Inv(s') && s'.role[p] == s.role[p]
            && Next(s'.pages, p, i) == (if Present(s.pages[p][i]) then Next(s.pages, p, i) else if s.free == []
                then None else Some(s.free[0]))
            && (Next(s'.pages, p, i).Some? ==>
                Next(s'.pages, p, i).value < NPAGES
                && s'.role[Next(s'.pages, p, i).value] == ChildRole(s.role[p], p, i))
  {
    hide PdeAddr, PteAddr, Entry, Addr, L0, L1, L2, L3;
    if !Present(s.pages[p][i]) && s.free != [] {
      LinkInv(s, p, i, attr);
      LinkNext(s, p, i, attr, p, i);
    } else {
      NextIs(s, p, i);
    }
  }

  /** find_pud_entry with alloc == 1: the memory after it, and the level-2 table found, if any. */
  ghost function EnsurePmd(s: Mem, root: nat, v: nat, attr: nat): Mem
    requires Inv(s) && root < NPAGES && s.role[root].Pgd? && AttrOk(attr)
  {
    EnsureTableKeeps(s, root, L0(v), attr);
    var s1 := EnsureTable(s, root, L0(v), attr);
    var u := Next(s1.pages, root, L0(v));
    if u.None? then s1 else EnsureTable(s1, u.value, L1(v), attr)
  }

  ghost function PmdFor(s: Mem, root: nat, v: nat): Option<nat> {
    Below(s.pages, Next(s.pages, root, L0(v)), L1(v))
  }

  /** How many tables map_page has to allocate for v. */
  ghost function MissingTables(s: Mem, root: nat, v: nat): nat {
    if Next(s.pages, root, L0(v)).None? then 2 else if PmdFor(s, root, v).None? then 1 else 0
  }

  lemma PmdForIs(s: Mem, root: nat, v: nat)
    requires Inv(s) && root < NPAGES && s.role[root].Pgd?
    ensures var u := Next(s.pages, root, L0(v));
            && (u.Some? ==> u.value < NPAGES && s.role[u.value] == Pud(root, L0(v)))
            && (PmdFor(s, root, v).Some? ==>
                PmdFor(s, root, v).value < NPAGES && s.role[PmdFor(s, root, v).value] == Pmd(u.value, L1(v)))
  {
    hide PdeAddr, PteAddr, Entry, Addr, L0, L1, L2, L3;
    Indices(v);
    NextIs(s, root, L0(v));
    var u := Next(s.pages, root, L0(v));
    if u.Some? {
      NextIs(s, u.value, L1(v));
    }
  }

  lemma EnsureTableWalks(s: Mem, p: nat, i: nat, attr: nat, root: nat, va: nat)
    requires Inv(s) && p < NPAGES && i < TABLE_LEN && AttrOk(attr) && (s.role[p].Pgd? || s.role[p].Pud?)
    requires root < NPAGES && s.role[root].Pgd?
    ensures BlockFrame(EnsureTable(s, p, i, attr).pages, root, va) == BlockFrame(s.pages, root, va)
  {
    hide PdeAddr, PteAddr, Entry, Addr, L0, L1, L2, L3;
    if !Present(s.pages[p][i]) && s.free != [] {
      LinkKeepsWalks(s, p, i, attr, root, va);
    }
  }

  /** Allocating the tables on the path to v: the pages taken, their new roles, and no translation changes. */
  lemma EnsurePmdKeeps(s: Mem, root: nat, v: nat, attr: nat)
    requires Inv(s) && root < NPAGES && s.role[root].Pgd? && AttrOk(attr)
    ensures var s' := EnsurePmd(s, root, v, attr);
            var n := MissingTables(s, root, v);
            && Inv(s')
            && s'.free == s.free[if n <= |s.free| then n else |s.free|..]
            && (PmdFor(s', root, v).Some? <==> n <= |s.free|)
            && (forall q :: 0 <= q < NPAGES && s.role[q] != Free ==> s'.role[q] == s.role[q])
  {
    hide PdeAddr, PteAddr, Entry, Addr, L0, L1, L2, L3;
    Indices(v);
    EnsureTableKeeps(s, root, L0(v), attr);
    NextIs(s, root, L0(v));
    var s1 := EnsureTable(s, root, L0(v), attr);
    var u := Next(s1.pages, root, L0(v));
    if u.Some? {
      EnsureTableKeeps(s1, u.value, L1(v), attr);
      SecondTable(s, root, v, attr);
      if u != Next(s.pages, root, L0(v)) {
        LinkNext(s, root, L0(v), attr, u.value, L1(v));
      }
    }
  }

  /** Filling the entry in the level-1 table leaves the path to that table as it was. */
  lemma SecondTable(s: Mem, root: nat, v: nat, attr: nat)
    requires Inv(s) && root < NPAGES && s.role[root].Pgd? && AttrOk(attr)
    ensures var s1 := EnsureTable(s, root, L0(v), attr);
            Next(EnsurePmd(s, root, v, attr).pages, root, L0(v)) == Next(s1.pages, root, L0(v))
  {
    hide PdeAddr, PteAddr, Entry, Addr, L0, L1, L2, L3;
    Indices(v);
    EnsureTableKeeps(s, root, L0(v), attr);
    var s1 := EnsureTable(s, root, L0(v), attr);
    var u := Next(s1.pages, root, L0(v));
    if u.Some? && !Present(s1.pages[u.value][L1(v)]) && s1.free != [] {
      LinkNext(s1, u.value, L1(v), attr, root, L0(v));
    }
  }

  lemma EnsurePmdWalks(s: Mem, root: nat, v: nat, attr: nat, r: nat, va: nat)
    requires Inv(s) && root < NPAGES && s.role[root].Pgd? && AttrOk(attr)
    requires r < NPAGES && s.role[r].Pgd?
    ensures BlockFrame(EnsurePmd(s, root, v, attr).pages, r, va) == BlockFrame(s.pages, r, va)
  {
    hide PdeAddr, PteAddr, Entry, Addr, L0, L1, L2, L3;
    Indices(v);
    EnsureTableKeeps(s, root, L0(v), attr);
    EnsureTableWalks(s, root, L0(v), attr, r, va);
    var s1 := EnsureTable(s, root, L0(v), attr);
    var u := Next(s1.pages, root, L0(v));
    if u.Some? {
      EnsureTableWalks(s1, u.value, L1(v), attr, r, va);
    }
  }

  /** The memory after map_page(root, v, frame t, attr). */
  ghost function MapPage(s: Mem, root: nat, v: nat, t: nat, attr: nat): Mem
    requires Inv(s) && root < NPAGES && s.role[root].Pgd? && t < NPAGES && AttrOk(attr)
  {
    EnsurePmdKeeps(s, root, v, attr);
    var s1 := EnsurePmd(s, root, v, attr);
    PmdForIs(s1, root, v);
    var d := PmdFor(s1, root, v);
    if d.None? then s1 else SetBlock(s1, d.value, L2(v), t, attr)
  }

  ghost predicate MapPageOk(s: Mem, root: nat, v: nat) {
    MissingTables(s, root, v) <= |s.free|
  }

  lemma EmptyEntry(s: Mem, root: nat, v: nat)
    requires Inv(s) && root < NPAGES && s.role[root].Pgd?
    requires BlockFrame(s.pages, root, v).None? && PmdFor(s, root, v).Some?
    ensures !Present(s.pages[PmdFor(s, root, v).value][L2(v)])
  {
    hide PdeAddr, PteAddr, Entry, Addr, L0, L1, L2, L3;
    Indices(v);
    PmdForIs(s, root, v);
  }

  lemma MapPageInv(s: Mem, root: nat, v: nat, t: nat, attr: nat)
    requires Inv(s) && root < NPAGES && s.role[root].Pgd? && AttrOk(attr)
    requires t < NPAGES && s.role[t] == Held && BlockFrame(s.pages, root, v).None?
    ensures var s' := MapPage(s, root, v, t, attr);
            && Inv(s')
            && s'.free == s.free[if MapPageOk(s, root, v) then MissingTables(s, root, v) else |s.free|..]
            && (forall q :: 0 <= q < NPAGES && s.role[q] != Free && (q != t || !MapPageOk(s, root, v)) ==>
                s'.role[q] == s.role[q])
            && (MapPageOk(s, root, v) ==> s'.role[t].Block?)
  {
    hide PdeAddr, PteAddr, Entry, Addr, L0, L1, L2, L3;
    EnsurePmdKeeps(s, root, v, attr);
    EnsurePmdWalks(s, root, v, attr, root, v);
    var s1 := EnsurePmd(s, root, v, attr);
    PmdForIs(s1, root, v);
    if PmdFor(s1, root, v).Some? {
      EmptyEntry(s1, root, v);
      Indices(v);
      SetBlockInv(s1, PmdFor(s1, root, v).value, L2(v), t, attr);
    }
  }

  /**
   map_page: when it succeeds, every address in v's block translates to frame t plus its offset;
   every other address of every map translates as before. When it fails nothing translates differently.
   */
  lemma MapPageWalks(s: Mem, root: nat, v: nat, t: nat, attr: nat, r: nat, va: nat)
    requires Inv(s) && root < NPAGES && s.role[root].Pgd? && AttrOk(attr)
    requires t < NPAGES && s.role[t] == Held && Walk(s.pages, root, v).None?
    requires r < NPAGES && s.role[r].Pgd?
    ensures Walk(MapPage(s, root, v, t, attr).pages, r, va) ==
            if MapPageOk(s, root, v) && r == root && BlockOf(va) == BlockOf(v) then Some(t * PAGE_SIZE + va % PAGE_SIZE)
            else Walk(s.pages, r, va)
  {
    hide Walk, BlockFrame, MapPage, MapPageOk, BlockOf, Inv;
    WalkIsBlockFrame(s, root, v);
    MapPageInv(s, root, v, t, attr);
    MapPageFrames(s, root, v, t, attr, r, va);
    WalkIsBlockFrame(s, r, va);
    WalkIsBlockFrame(MapPage(s, root, v, t, attr), r, va);
  }

  lemma MapPageFrames(s: Mem, root: nat, v: nat, t: nat, attr: nat, r: nat, va: nat)
    requires Inv(s) && root < NPAGES && s.role[root].Pgd? && AttrOk(attr)
    requires t < NPAGES && s.role[t] == Held && BlockFrame(s.pages, root, v).None?
    requires r < NPAGES && s.role[r].Pgd?
    ensures BlockFrame(MapPage(s, root, v, t, attr).pages, r, va) ==
            if MapPageOk(s, root, v) && r == root && BlockOf(va) == BlockOf(v) then Some(t)
            else BlockFrame(s.pages, r, va)
  {
    hide PdeAddr, PteAddr, Entry, Addr, L0, L1, L2, L3;
    EnsurePmdKeeps(s, root, v, attr);
    EnsurePmdWalks(s, root, v, attr, root, v);
    EnsurePmdWalks(s, root, v, attr, r, va);
    var s1 := EnsurePmd(s, root, v, attr);
    PmdForIs(s1, root, v);
    PmdForIs(s1, r, va);
    BlockIndices(va, v);
    if PmdFor(s1, root, v).Some? {
      EmptyEntry(s1, root, v);
      Indices(v);
      SetBlockWalks(s1, PmdFor(s1, root, v).value, L2(v), t, attr, r, va);
    }
  }

  /** Adding a table below a page that r's path does not use leaves that path alone. */
  lemma LinkKeepsPath(s: Mem, p: nat, i: nat, attr: nat, r: nat, va: nat)
    requires Inv(s) && s.free != [] && p < NPAGES && i < TABLE_LEN && AttrOk(attr)
    requires s.role[p].Pgd? || s.role[p].Pud?
    requires r < NPAGES && s.role[r].Pgd? && r != p && !(s.role[p].Pud? && s.role[p].parent == r)
    ensures PmdFor(Link(s, p, i, attr), r, va) == PmdFor(s, r, va)
  {
    hide PdeAddr, PteAddr, Entry, Addr, L0, L1, L2, Link, Next, FreeLinks;
    Indices(va);
    NextIs(s, r, L0(va));
    LinkNext(s, p, i, attr, r, L0(va));
    var u := Next(s.pages, r, L0(va));
    if u.Some? {
      LinkNext(s, p, i, attr, u.value, L1(va));
    }
  }

  lemma EnsurePmdKeepsPath(s: Mem, root: nat, v: nat, attr: nat, r: nat, va: nat)
    requires Inv(s) && root < NPAGES && s.role[root].Pgd? && AttrOk(attr)
    requires r < NPAGES && s.role[r].Pgd? && r != root
    ensures PmdFor(EnsurePmd(s, root, v, attr), r, va) == PmdFor(s, r, va)
  {
    hide PdeAddr, PteAddr, Entry, Addr, L0, L1, L2, Link, Next, FreeLinks, Children, Parents, PmdFor;
    Indices(v);
    EnsureTableKeeps(s, root, L0(v), attr);
    var s1 := EnsureTable(s, root, L0(v), attr);
    if !Present(s.pages[root][L0(v)]) && s.free != [] {
      LinkKeepsPath(s, root, L0(v), attr, r, va);
    }
    var u := Next(s1.pages, root, L0(v));
    if u.Some? && !Present(s1.pages[u.value][L1(v)]) && s1.free != [] {
      EnsurePmdKeeps(s, root, v, attr);
      RoleKept(s, root, L0(v), attr, r);
      LinkKeepsPath(s1, u.value, L1(v), attr, r, va);
    }
  }

  lemma RoleKept(s: Mem, p: nat, i: nat, attr: nat, q: nat)
    requires Inv(s) && p < NPAGES && i < TABLE_LEN && AttrOk(attr) && IsTable(s.role[p])
    requires q < NPAGES && s.role[q] != Free
    ensures Shape(EnsureTable(s, p, i, attr)) && EnsureTable(s, p, i, attr).role[q] == s.role[q]
  {
    hide PdeAddr, PteAddr, Entry, Addr, FreeLinks, Children, Parents;
  }

  lemma MapPageKeepsPath(s: Mem, root: nat, v: nat, t: nat, attr: nat, r: nat, va: nat)
    requires Inv(s) && root < NPAGES && s.role[root].Pgd? && t < NPAGES && AttrOk(attr)
    requires r < NPAGES && s.role[r].Pgd? && r != root
    ensures PmdFor(MapPage(s, root, v, t, attr), r, va) == PmdFor(s, r, va)
  {
    hide PdeAddr, PteAddr, Entry, Addr, L0, L1, L2, Next, FreeLinks, Children, Parents, EnsurePmd, MissingTables;
    EnsurePmdKeeps(s, root, v, attr);
    EnsurePmdKeepsPath(s, root, v, attr, r, va);
    var s1 := EnsurePmd(s, root, v, attr);
    PmdForIs(s1, root, v);
    PmdForIs(s1, r, va);
    Indices(va);
    Indices(v);
    var d := PmdFor(s1, root, v);
    if d.Some? {
      SetBlockNext(s1, d.value, L2(v), t, attr, r, L0(va));
      var u := Next(s1.pages, r, L0(va));
      if u.Some? {
        SetBlockNext(s1, d.value, L2(v), t, attr, u.value, L1(va));
      }
    }
  }

  /** Paths through tables whose contents did not change. */
  lemma TablesSame(s: Mem, pages: seq<Page>, root: nat, va: nat)
    requires Inv(s) && root < NPAGES && s.role[root].Pgd? && |pages| == NPAGES
    requires forall p :: 0 <= p < NPAGES && IsTable(s.role[p]) ==> pages[p] == s.pages[p]
    ensures BlockFrame(pages, root, va) == BlockFrame(s.pages, root, va)
    ensures Next(pages, root, L0(va)) == Next(s.pages, root, L0(va))
    ensures Below(pages, Next(pages, root, L0(va)), L1(va)) == PmdFor(s, root, va)
  {
    hide L0, L1, L2, FreeList, Target;
    Indices(va);
    NextIs(s, root, L0(va));
    var u := Next(s.pages, root, L0(va));
    if u.Some? {
      NextIs(s, u.value, L1(va));
    }
  }

  /** kalloc followed by memset. */
  ghost function TakeZeroed(s: Mem): Mem
    requires Shape(s) && s.free != [] && s.free[0] < NPAGES
  {
    Pop(s).(pages := s.pages[s.free[0] := Zeros()])
  }

  lemma TakeZeroedInv(s: Mem)
    requires Inv(s) && s.free != []
    ensures Inv(TakeZeroed(s)) && TakeZeroed(s).role[s.free[0]] == Held
  {
    hide PdeAddr, PteAddr, Addr;
    PopInv(s);
    var s1, s' := Pop(s), TakeZeroed(s);
    TakeZeroedLinks(s);
    assert FreeList(s');
    forall p, i | 0 <= p < NPAGES && 0 <= i < TABLE_LEN && IsTable(s'.role[p]) && Present(s'.pages[p][i])
      ensures ChildOk(s', p, i)
    {
      assert ChildOk(s1, p, i);
    }
    forall t | 0 <= t < NPAGES && IsLinked(s'.role[t]) ensures ParentOk(s', t) {
      assert ParentOk(s1, t);
    }
  }

  lemma TakeZeroedLinks(s: Mem)
    requires Inv(s) && s.free != []
    ensures FreeLinks(TakeZeroed(s))
  {
    hide PdeAddr, PteAddr, Addr, Children, Parents;
    forall k | 0 <= k < |s.free| - 1
      ensures s.free[1..][k] < NPAGES && TakeZeroed(s).pages[s.free[1..][k]][0] == LinkTo(s.free[1..], k + 1)
    {
      assert s.free[1..][k] == s.free[k + 1];
    }
  }

  lemma EnsureTableContents(s: Mem, p: nat, i: nat, attr: nat, q: nat)
    requires Inv(s) && p < NPAGES && i < TABLE_LEN && AttrOk(attr) && IsTable(s.role[p])
    requires q < NPAGES && s.role[q] != Free && q != p
    ensures var s' := EnsureTable(s, p, i, attr);
            Shape(s') && s'.pages[q] == s.pages[q] && s'.role[q] == s.role[q]
  {
    hide PdeAddr, PteAddr, Entry, Addr, FreeLinks, Children, Parents;
  }

  /** map_page writes only tables and pages it takes off the free list. */
  lemma MapPageContents(s: Mem, root: nat, v: nat, t: nat, attr: nat, q: nat)
    requires Inv(s) && root < NPAGES && s.role[root].Pgd? && t < NPAGES && AttrOk(attr)
    requires q < NPAGES && s.role[q] != Free && !IsTable(s.role[q])
    ensures Shape(MapPage(s, root, v, t, attr)) && MapPage(s, root, v, t, attr).pages[q] == s.pages[q]
  {
    hide PdeAddr, PteAddr, Entry, Addr, L0, L1, L2, FreeList, Children, Parents, Next, EnsureTable, MissingTables;
    Indices(v);
    EnsureTableKeeps(s, root, L0(v), attr);
    EnsureTableContents(s, root, L0(v), attr, q);
    var s1 := EnsureTable(s, root, L0(v), attr);
    var u := Next(s1.pages, root, L0(v));
    if u.Some? {
      EnsureTableContents(s1, u.value, L1(v), attr, q);
    }
    EnsurePmdKeeps(s, root, v, attr);
    PmdForIs(EnsurePmd(s, root, v, attr), root, v);
  }

  /** The contents of pages that are neither free nor tables do not matter to the invariant. */
  lemma WriteData(s: Mem, t: nat, contents: Page)
    requires Inv(s) && t < NPAGES && s.role[t] != Free && !IsTable(s.role[t])
    ensures Inv(s.(pages := s.pages[t := contents]))
  {
    hide PdeAddr, PteAddr, Addr;
    var s' := s.(pages := s.pages[t := contents]);
    forall p, i | 0 <= p < NPAGES && 0 <= i < TABLE_LEN && IsTable(s'.role[p]) && Present(s'.pages[p][i])
      ensures ChildOk(s', p, i)
    {
      assert ChildOk(s, p, i);
    }
    forall q | 0 <= q < NPAGES && IsLinked(s'.role[q]) ensures ParentOk(s', q) {
      assert ParentOk(s, q);
    }
  }

  lemma TakeZeroedWalks(s: Mem, root: nat, va: nat)
    requires Inv(s) && s.free != [] && root < NPAGES && s.role[root].Pgd?
    ensures var s' := TakeZeroed(s);
            && s'.role[root].Pgd?
            && BlockFrame(s'.pages, root, va) == BlockFrame(s.pages, root, va)
            && Walk(s'.pages, root, va) == Walk(s.pages, root, va)
            && PmdFor(s', root, va) == PmdFor(s, root, va)
            && MissingTables(s', root, va) == MissingTables(s, root, va)
  {
    hide Walk, BlockFrame, L0, L1, L2, FreeLinks, Children, Parents;
    TakeZeroedInv(s);
    TablesSame(s, TakeZeroed(s).pages, root, va);
    WalkIsBlockFrame(s, root, va);
    WalkIsBlockFrame(TakeZeroed(s), root, va);
  }
}
