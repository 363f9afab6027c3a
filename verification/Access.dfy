/**
 What user code may do with a page: the table walk again, this time with the attributes the processor
 checks on the way ("Memory attribute fields in the VMSAv8-64 translation table format descriptors",
 Arm ARM DDI 0487, section D5.3.3), and which attributes map_page stores.
 */
module Access {
  import opened Words
  import opened Paging
  import opened Walks

  // Attribute fields of a leaf descriptor

  /** Bit 10, the access flag: without it the first access faults. */
  predicate Accessed(e: nat) { e / 0x400 % 2 == 1 }

  /** Bits 7:6, AP[2:1]: 01 is read and write for EL1 and EL0. */
  predicate UserReadWrite(e: nat) { e / 0x40 % 4 == 1 }

  /** Bits 4:2, the index into the memory attribute register, where the boot code puts normal memory at 1. */
  predicate NormalMemory(e: nat) { e / 4 % 8 == 1 }

  /** Bits 54:53, the execute-never bits, are clear. */
  predicate Executable(e: nat) { e / 0x20_0000_0000_0000 % 4 == 0 }

  predicate UserLeaf(e: nat) { Accessed(e) && UserReadWrite(e) && NormalMemory(e) && Executable(e) }

  /** Bits 63:59 of a table descriptor, which restrict everything below it, are clear. */
  predicate OpenTable(e: nat) { IsTableEntry(e) && e / 0x800_0000_0000_0000 == 0 }

  // The walk of an access at EL0: to read, to write, or to fetch an instruction

  /** The physical address at which user code reaches va from the table in page root, if it may. */
  function UserAccess(pages: seq<Page>, root: nat, va: nat): Option<nat> {
    var e := ReadWord(pages, root * PAGE_SIZE + 8 * L0(va));
    if OpenTable(e) then UserAccess1(pages, PdeAddr(e), va) else None
  }

  function UserAccess1(pages: seq<Page>, table: nat, va: nat): Option<nat> {
    var e := ReadWord(pages, table + 8 * L1(va));
    if OpenTable(e) then UserAccess2(pages, PdeAddr(e), va)
    else if IsBlockEntry(e) && UserLeaf(e) then Some(GigabyteBase(e) + va % 0x4000_0000)
    else None
  }

  function UserAccess2(pages: seq<Page>, table: nat, va: nat): Option<nat> {
    var e := ReadWord(pages, table + 8 * L2(va));
    if OpenTable(e) then UserAccess3(pages, PdeAddr(e), va)
    else if IsBlockEntry(e) && UserLeaf(e) then Some(PteAddr(e) + va % PAGE_SIZE)
    else None
  }

  function UserAccess3(pages: seq<Page>, table: nat, va: nat): Option<nat> {
    var e := ReadWord(pages, table + 8 * L3(va));
    if IsTableEntry(e) && UserLeaf(e) then Some(PdeAddr(e) + va % 0x1000) else None
  }

  /** What user code may reach is where the address translates to. */
  lemma AccessIsWalk(pages: seq<Page>, root: nat, va: nat)
    ensures UserAccess(pages, root, va).Some? ==> UserAccess(pages, root, va) == Walk(pages, root, va)
  {
    hide ReadWord, PdeAddr, PteAddr, L0, L1, L2, L3, GigabyteBase, UserLeaf;
  }

  // The user page of a map

  /** The three descriptors on the way to 0x400000, as setup_uvm and copy_uvm have them built. */
  ghost predicate UserPath(pages: seq<Page>, root: nat, u: nat, d: nat, t: nat) {
    && root < |pages| && u < |pages| && d < |pages|
    && pages[root][0] == Entry(u, UVM_ATTR, TABLE_ENTRY)
    && pages[u][0] == Entry(d, UVM_ATTR, TABLE_ENTRY)
    && pages[d][2] == Entry(t, UVM_ATTR, BLOCK_ENTRY)
  }

  /** The attributes of setup_uvm and copy_uvm let user code use the page. */
  lemma UvmEntry(t: nat)
    requires t < NPAGES
    ensures var e := Entry(t, UVM_ATTR, BLOCK_ENTRY); IsBlockEntry(e) && UserLeaf(e) && PteAddr(e) == t * PAGE_SIZE
    ensures var e := Entry(t, UVM_ATTR, TABLE_ENTRY); OpenTable(e) && PdeAddr(e) == t * PAGE_SIZE
  {
    UvmAttributes();
    EntryRoundTrip(t, UVM_ATTR, true);
    EntryRoundTrip(t, UVM_ATTR, false);
    EntryIsSum(t, UVM_ATTR, true);
    EntryIsSum(t, UVM_ATTR, false);
    AttributeBits(t);
  }

  lemma AttributeBits(t: nat)
    requires t < NPAGES
    ensures UserLeaf(t * PAGE_SIZE + UVM_ATTR) && (t * PAGE_SIZE + UVM_ATTR + 2) / 0x800_0000_0000_0000 == 0
  {
    hide Accessed, UserReadWrite, NormalMemory, Executable;
    var e := t * PAGE_SIZE + UVM_ATTR;
    AccessBits(t, e);
    UpperBits(e);
  }

  lemma AccessBits(t: nat, e: nat)
    requires e == t * 0x20_0000 + 0x445
    ensures Accessed(e) && UserReadWrite(e) && NormalMemory(e)
  {
    DivUnique(e, 0x400, t * 0x800 + 1, 0x45);
    DivUnique(t * 0x800 + 1, 2, t * 0x400, 1);
    DivUnique(e, 0x40, t * 0x8000 + 0x11, 5);
    DivUnique(t * 0x8000 + 0x11, 4, t * 0x2000 + 4, 1);
    DivUnique(e, 4, t * 0x8_0000 + 0x111, 1);
    DivUnique(t * 0x8_0000 + 0x111, 8, t * 0x1_0000 + 0x22, 1);
  }

  lemma UpperBits(e: nat)
    requires e < 0x4000_0000
    ensures Executable(e) && (e + 2) / 0x800_0000_0000_0000 == 0
  {
    DivUnique(e, 0x20_0000_0000_0000, 0, e);
    DivUnique(e + 2, 0x800_0000_0000_0000, 0, e + 2);
  }

  /** User code may use all of the block at 0x400000, and reaches page t there. */
  lemma UserPathAccess(pages: seq<Page>, root: nat, u: nat, d: nat, t: nat, va: nat)
    requires |pages| == NPAGES && t < NPAGES && UserPath(pages, root, u, d, t) && BlockOf(va) == BlockOf(USER_VA)
    ensures UserAccess(pages, root, va) == Some(t * PAGE_SIZE + va % PAGE_SIZE)
  {
    hide PdeAddr, PteAddr, L0, L1, L2, ReadWord, IsTableEntry, IsBlockEntry, UserLeaf, Entry;
    UserPathIndices(va);
    UvmEntry(u);
    UvmEntry(d);
    UvmEntry(t);
    TableOrBlock(Entry(t, UVM_ATTR, BLOCK_ENTRY));
    ReadTable(pages, root, 0);
    ReadTable(pages, u, 0);
    ReadTable(pages, d, 2);
  }

  lemma TableOrBlock(e: nat)
    requires IsBlockEntry(e)
    ensures !OpenTable(e)
  {
  }

  lemma UserPathIndices(va: nat)
    requires BlockOf(va) == BlockOf(USER_VA)
    ensures L0(va) == 0 && L1(va) == 0 && L2(va) == 2
  {
    BlockIndices(va, USER_VA);
  }

  // What map_page stores

  /** The level-2 entry on the way of v. */
  ghost function LeafEntry(s: Mem, root: nat, v: nat): Option<nat>
    requires Shape(s)
  {
    var d := PmdFor(s, root, v);
    if d.Some? && d.value < NPAGES && L2(v) < TABLE_LEN then Some(s.pages[d.value][L2(v)]) else None
  }

  /** After map_page the entry of v is the address of the page with exactly the given attributes. */
  lemma MapPageLeaf(s: Mem, root: nat, v: nat, t: nat, attr: nat)
    requires Inv(s) && root < NPAGES && s.role[root].Pgd? && AttrOk(attr)
    requires t < NPAGES && s.role[t] == Held && Walk(s.pages, root, v).None? && MapPageOk(s, root, v)
    ensures var s' := MapPage(s, root, v, t, attr);
            Shape(s') && LeafEntry(s', root, v) == Some(t * PAGE_SIZE + attr)
  {
    hide PdeAddr, PteAddr, Entry, Addr, L0, L1, L2, L3, FreeLinks, NoDup, MissingTables, Walk, EnsurePmd;
    WalkIsBlockFrame(s, root, v);
    EnsurePmdKeeps(s, root, v, attr);
    EnsurePmdWalks(s, root, v, attr, root, v);
    var s1 := EnsurePmd(s, root, v, attr);
    PmdForIs(s1, root, v);
    Indices(v);
    var d := PmdFor(s1, root, v).value;
    EntryIsSum(t, attr, false);
    SetBlockPath(s1, d, t, attr, root, v);
  }

  /** Filling the level-2 entry leaves the way to it alone. */
  lemma SetBlockPath(s: Mem, d: nat, t: nat, attr: nat, root: nat, v: nat)
    requires Inv(s) && root < NPAGES && s.role[root].Pgd? && t < NPAGES && AttrOk(attr) && PmdFor(s, root, v) == Some(d)
    requires d < NPAGES && s.role[d].Pmd?
    ensures PmdFor(SetBlock(s, d, L2(v), t, attr), root, v) == Some(d)
    ensures SetBlock(s, d, L2(v), t, attr).pages[d][L2(v)] == Entry(t, attr, BLOCK_ENTRY)
  {
    hide PdeAddr, PteAddr, Entry, Addr, L0, L1, L2, L3, FreeLinks, NoDup, SetBlock;
    Indices(v);
    PmdForIs(s, root, v);
    SetBlockNext(s, d, L2(v), t, attr, root, L0(v));
    SetBlockNext(s, d, L2(v), t, attr, Next(s.pages, root, L0(v)).value, L1(v));
    SetBlockWord(s, d, L2(v), t, attr);
  }

  lemma SetBlockWord(s: Mem, d: nat, k: nat, t: nat, attr: nat)
    requires Shape(s) && d < NPAGES && k < TABLE_LEN && t < NPAGES && AttrOk(attr)
    ensures SetBlock(s, d, k, t, attr).pages[d][k] == Entry(t, attr, BLOCK_ENTRY)
  {
    hide Entry;
  }

  /** map_page changes no valid entry of any table. */
  lemma MapPageKeepsEntries(s: Mem, root: nat, v: nat, t: nat, attr: nat, q: nat, j: nat)
    requires Inv(s) && root < NPAGES && s.role[root].Pgd? && AttrOk(attr)
    requires t < NPAGES && s.role[t] == Held && Walk(s.pages, root, v).None?
    requires q < NPAGES && IsTable(s.role[q]) && j < TABLE_LEN && Present(s.pages[q][j])
    ensures var s' := MapPage(s, root, v, t, attr); Shape(s') && s'.pages[q][j] == s.pages[q][j]
  {
    hide PdeAddr, PteAddr, Entry, Addr, L0, L1, L2, L3, FreeLinks, NoDup, MissingTables, Walk, EnsurePmd;
    WalkIsBlockFrame(s, root, v);
    EnsurePmdKeeps(s, root, v, attr);
    EnsurePmdWalks(s, root, v, attr, root, v);
    EnsurePmdEntries(s, root, v, attr, q, j);
    var s1 := EnsurePmd(s, root, v, attr);
    PmdForIs(s1, root, v);
    Indices(v);
    if PmdFor(s1, root, v).Some? {
      EmptyEntry(s1, root, v);
    }
  }

  lemma EnsurePmdEntries(s: Mem, root: nat, v: nat, attr: nat, q: nat, j: nat)
    requires Inv(s) && root < NPAGES && s.role[root].Pgd? && AttrOk(attr)
    requires q < NPAGES && IsTable(s.role[q]) && j < TABLE_LEN && Present(s.pages[q][j])
    ensures var s' := EnsurePmd(s, root, v, attr); Shape(s') && s'.pages[q][j] == s.pages[q][j]
  {
    hide PdeAddr, PteAddr, Entry, Addr, L0, L1, L2, L3, FreeLinks, NoDup, EnsureTable, Next;
    Indices(v);
    EnsureTableKeeps(s, root, L0(v), attr);
    EnsureTableEntries(s, root, L0(v), attr, q, j);
    var s1 := EnsureTable(s, root, L0(v), attr);
    var u := Next(s1.pages, root, L0(v));
    if u.Some? {
      EnsureTableKeeps(s1, u.value, L1(v), attr);
      EnsureTableEntries(s1, u.value, L1(v), attr, q, j);
    }
  }

  lemma EnsureTableEntries(s: Mem, p: nat, i: nat, attr: nat, q: nat, j: nat)
    requires Inv(s) && p < NPAGES && i < TABLE_LEN && AttrOk(attr) && (s.role[p].Pgd? || s.role[p].Pud?)
    requires q < NPAGES && IsTable(s.role[q]) && j < TABLE_LEN && Present(s.pages[q][j])
    ensures var s' := EnsureTable(s, p, i, attr);
            Shape(s') && s'.pages[q][j] == s.pages[q][j] && s'.role[q] == s.role[q]
  {
    hide PdeAddr, PteAddr, Entry, Addr, FreeLinks, Children, Parents;
  }
}
