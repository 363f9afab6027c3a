/**
 Physical memory, the descriptor encodings, and the three-level table walk. A memory value
 carries, next to the page contents, the free list and the one role each page has; `Inv` says
 that contents and roles agree. The operations of the allocator and of the page-table code
 are functions on such values.
 */
module Paging {
  import opened Words

  const KERNEL_BASE: nat := 0xffff000000000000
  const PAGE_SIZE: nat := 0x200000
  const PAGE_WORDS: nat := 0x40000
  const NPAGES: nat := 384
  const TABLE_LEN: nat := 512
  const USER_VA: nat := 0x400000

  const ENTRY_V: nat := 1
  const TABLE_ENTRY: nat := 2
  const BLOCK_ENTRY: nat := 0
  const NORMAL_MEMORY: nat := 4
  const USER: nat := 64
  const ENTRY_ACCESSED: nat := 1024
  // ENTRY_V | USER | NORMAL_MEMORY | ENTRY_ACCESSED
  const UVM_ATTR: nat := 1093

  type Page = p: seq<Word> | |p| == PAGE_WORDS witness seq(PAGE_WORDS, _ => 0)

  function Zeros(): Page {
    seq(PAGE_WORDS, _ => 0)
  }

  /** Kernel virtual address of page frame p, and back. */
  function Addr(p: nat): nat { KERNEL_BASE + p * PAGE_SIZE }

  function Frame(va: nat): nat
    requires va >= KERNEL_BASE
  {
    (va - KERNEL_BASE) / PAGE_SIZE
  }

  function PdeAddr(e: nat): nat { And(e, 0xfffffffff000) }

  function PteAddr(e: nat): nat { And(e, 0xffffffe00000) }

  predicate Present(e: nat) { e % 2 == 1 }

  function L0(va: nat): nat { va / 0x80_0000_0000 % 512 }

  function L1(va: nat): nat { va / 0x4000_0000 % 512 }

  function L2(va: nat): nat { va / 0x20_0000 % 512 }

  function L3(va: nat): nat { va / 0x1000 % 512 }

  /** Bits 47..21: the 2 MB block a virtual address lies in. */
  function BlockOf(va: nat): nat { va / 0x20_0000 % 0x800_0000 }

  lemma BlockIndices(v: nat, w: nat)
    ensures BlockOf(v) == BlockOf(w) <==> L0(v) == L0(w) && L1(v) == L1(w) && L2(v) == L2(w)
  {
    BlockSplit(v);
    BlockSplit(w);
  }

  lemma BlockSplit(v: nat)
    ensures BlockOf(v) == L0(v) * 0x40000 + L1(v) * 512 + L2(v)
  {
    var b := v / 0x20_0000;
    DivMod(v, 0x20_0000, 512);
    DivMod(v, 0x20_0000, 0x40000);
    DivMod(b, 512, 512);
    DivMod(b, 0x40000, 512);
  }

  /** A descriptor for frame t carrying the given attributes and type bit. */
  function Entry(t: nat, attr: nat, kind: nat): nat {
    Or(Or(t * PAGE_SIZE, attr), kind)
  }

  predicate AttrOk(attr: nat) {
    attr < 0x1000 && attr % 4 == 1
  }

  lemma UvmAttributes()
    ensures UVM_ATTR == Or(Or(Or(ENTRY_V, USER), NORMAL_MEMORY), ENTRY_ACCESSED) && AttrOk(UVM_ATTR)
  {
    assert Or(1, 64) == 65;
    assert Or(16, 1) == 17 && Or(32, 2) == 34 && Or(65, 4) == 69;
    assert Or(1, 16) == 17 && Or(2, 32) == 34 && Or(4, 64) == 68 && Or(8, 128) == 136;
    assert Or(17, 256) == 273 && Or(34, 512) == 546 && Or(69, 1024) == 1093;
  }

  predicate IsTableEntry(e: nat) { e % 4 == 3 }

  predicate IsBlockEntry(e: nat) { e % 4 == 1 }

  lemma EntryKinds(e: nat)
    ensures Present(e) <==> IsTableEntry(e) || IsBlockEntry(e)
    ensures !(IsTableEntry(e) && IsBlockEntry(e))
  {
    assert e == 4 * (e / 4) + e % 4;
    DivUnique(e, 2, 2 * (e / 4) + e % 4 / 2, e % 4 % 2);
  }

  /** e is a table descriptor (or a 2 MB block descriptor) for frame t. */
  predicate Encodes(e: nat, t: nat, table: bool) {
    (if table then IsTableEntry(e) else IsBlockEntry(e)) && PdeAddr(e) == t * PAGE_SIZE && PteAddr(e) == t * PAGE_SIZE
  }

  lemma Masks(e: nat)
    ensures PdeAddr(e) == e % 0x1_0000_0000_0000 - e % 0x1000
    ensures PteAddr(e) == e % 0x1_0000_0000_0000 - e % 0x20_0000
  {
    PowersUsed();
    AndField(e, 12, 48);
    AndField(e, 21, 48);
  }

  lemma PowersUsed()
    ensures Pow2(12) == 0x1000 && Pow2(21) == 0x20_0000 && Pow2(48) == 0x1_0000_0000_0000
  {
    assert Pow2(12) == 0x1000 && Pow2(9) == 512;
    Pow2Add(12, 12);
    Pow2Add(24, 24);
    Pow2Add(12, 9);
  }

  lemma LowBits(t: nat, a: nat)
    requires t < NPAGES && a < 0x1000
    ensures var x := t * PAGE_SIZE + a;
            x % 4 == a % 4 && x % 0x1000 == a && x % 0x20_0000 == a && x % 0x1_0000_0000_0000 == x
  {
    var x := t * PAGE_SIZE + a;
    DivUnique(x, 0x20_0000, t, a);
    DivMod(x, 0x1000, 512);
    DivUnique(x, 0x1000, t * 512, a);
  }

  /** Packing then unpacking a descriptor gives the frame back: attributes never reach the address. */
  lemma EntryRoundTrip(t: nat, attr: nat, table: bool)
    requires t < NPAGES && AttrOk(attr)
    ensures var e := Entry(t, attr, if table then TABLE_ENTRY else BLOCK_ENTRY);
            e < WORD_LIMIT && Encodes(e, t, table)
  {
    EntryIsSum(t, attr, table);
    var a := if table then attr + 2 else attr;
    LowBits(t, a);
    Masks(t * PAGE_SIZE + a);
  }

  lemma EntryIsSum(t: nat, attr: nat, table: bool)
    requires t < NPAGES && AttrOk(attr)
    ensures table ==> Entry(t, attr, TABLE_ENTRY) == t * PAGE_SIZE + (attr + 2)
    ensures !table ==> Entry(t, attr, BLOCK_ENTRY) == t * PAGE_SIZE + attr
  {
    PowersUsed();
    LowBits(t, 0);
    OrAdds(t * PAGE_SIZE, attr, 12);
    LowBits(t, attr);
    OrTwo(t * PAGE_SIZE + attr);
  }

  lemma OrTwo(x: nat)
    requires x % 4 == 1
    ensures Or(x, 2) == x + 2
  {
    var h := x / 2;
    assert h % 2 == 0;
    assert Or(h, 1) == h + 1;
    assert Or(x, 2) == 2 * Or(h, 1) + 1;
  }

  /** What a page frame is used for. Tables and blocks name the table entry that points to them. */
  datatype Role =
    | Reserved
    | Free
    | Held
    | Pgd
    | Pud(parent: nat, idx: nat)
    | Pmd(parent: nat, idx: nat)
    | Block(parent: nat, idx: nat)

  datatype Option<T> = None | Some(value: T)

  datatype Mem = Mem(pages: seq<Page>, free: seq<nat>, role: seq<Role>)

  predicate IsTable(r: Role) { r.Pgd? || r.Pud? || r.Pmd? }

  predicate IsLinked(r: Role) { r.Pud? || r.Pmd? || r.Block? }

  function ChildRole(r: Role, p: nat, i: nat): Role
    requires IsTable(r)
  {
    if r.Pgd? then Pud(p, i) else if r.Pud? then Pmd(p, i) else Block(p, i)
  }

  function Target(e: nat): nat { PteAddr(e) / PAGE_SIZE }

  /** The link word stored in the page before position k of the free list; 0 is NULL. */
  function LinkTo(free: seq<nat>, k: nat): nat
    requires k <= |free|
  {
    if k < |free| then Addr(free[k]) else 0
  }

  ghost predicate Shape(s: Mem) { |s.pages| == |s.role| == NPAGES }

  ghost predicate NoDup(free: seq<nat>) {
    forall j, k :: 0 <= j < k < |free| ==> free[j] != free[k]
  }

  /** The listed pages are exactly the pages whose role is Free. */
  ghost predicate FreeRoles(s: Mem)
    requires Shape(s)
  {
    && (forall k :: 0 <= k < |s.free| ==> s.free[k] < NPAGES && s.role[s.free[k]] == Free)
    && (forall p :: 0 <= p < NPAGES && s.role[p] == Free ==> p in s.free)
  }

  /** The first word of each listed page holds the address of the next one. */
  ghost predicate FreeLinks(s: Mem)
    requires Shape(s)
  {
    forall k :: 0 <= k < |s.free| ==> s.free[k] < NPAGES && s.pages[s.free[k]][0] == LinkTo(s.free, k + 1)
  }

  ghost predicate FreeList(s: Mem) {
    && Shape(s)
    && NoDup(s.free)
    && FreeRoles(s)
    && FreeLinks(s)
  }

  /** A present entry i of table p points, with the right descriptor type, to a page that knows it. */
  ghost predicate ChildOk(s: Mem, p: nat, i: nat)
    requires Shape(s) && p < NPAGES && i < TABLE_LEN && IsTable(s.role[p])
  {
    var e := s.pages[p][i];
    var t := Target(e);
    t < NPAGES && Encodes(e, t, !s.role[p].Pmd?) && s.role[t] == ChildRole(s.role[p], p, i)
  }

  /** A page that claims to hang below an entry does. */
  ghost predicate ParentOk(s: Mem, t: nat)
    requires Shape(s) && t < NPAGES && IsLinked(s.role[t])
  {
    var p, i := s.role[t].parent, s.role[t].idx;
    && p < NPAGES && i < TABLE_LEN && IsTable(s.role[p])
    && s.role[t] == ChildRole(s.role[p], p, i)
    && Present(s.pages[p][i]) && Target(s.pages[p][i]) == t
  }

  ghost predicate Children(s: Mem)
    requires Shape(s)
  {
    forall p, i :: 0 <= p < NPAGES && 0 <= i < TABLE_LEN && IsTable(s.role[p]) && Present(s.pages[p][i]) ==>
        ChildOk(s, p, i)
  }

  ghost predicate Parents(s: Mem)
    requires Shape(s)
  {
    forall t :: 0 <= t < NPAGES && IsLinked(s.role[t]) ==> ParentOk(s, t)
  }

  ghost predicate Inv(s: Mem) { Shape(s) && FreeList(s) && Children(s) && Parents(s) }

  // Operations

  ghost function Pop(s: Mem): Mem
    requires Shape(s) && s.free != [] && s.free[0] < NPAGES
  {
    Mem(s.pages, s.free[1..], s.role[s.free[0] := Held])
  }

  ghost function Push(s: Mem, p: nat): Mem
    requires Shape(s) && p < NPAGES && (s.free != [] ==> s.free[0] < NPAGES)
  {
    Mem(s.pages[p := s.pages[p][0 := LinkTo(s.free, 0)]], [p] + s.free, s.role[p := Free])
  }

  ghost function SetWord(s: Mem, p: nat, i: nat, w: Word): Mem
    requires Shape(s) && p < NPAGES && i < PAGE_WORDS
  {
    s.(pages := s.pages[p := s.pages[p][i := w]])
  }

  /** Take a page off the free list, clear it and hang it below entry i of table p. */
  ghost function Link(s: Mem, p: nat, i: nat, attr: nat): Mem
    requires Shape(s) && s.free != [] && s.free[0] < NPAGES && p < NPAGES && i < TABLE_LEN
    requires AttrOk(attr) && IsTable(s.role[p])
  {
    EntryRoundTrip(s.free[0], attr, true);
    LinkEntry(s, p, i, Entry(s.free[0], attr, TABLE_ENTRY))
  }

  ghost function LinkEntry(s: Mem, p: nat, i: nat, e: Word): Mem
    requires Shape(s) && s.free != [] && s.free[0] < NPAGES && p < NPAGES && i < TABLE_LEN && IsTable(s.role[p])
  {
    var t := s.free[0];
    var pages := s.pages[t := Zeros()];
    Mem(pages[p := pages[p][i := e]], s.free[1..], s.role[t := ChildRole(s.role[p], p, i)])
  }

  ghost function SetBlock(s: Mem, d: nat, k: nat, t: nat, attr: nat): Mem
    requires Shape(s) && d < NPAGES && k < TABLE_LEN && t < NPAGES && AttrOk(attr)
  {
    EntryRoundTrip(t, attr, false);
    SetWord(s, d, k, Entry(t, attr, BLOCK_ENTRY)).(role := s.role[t := Block(d, k)])
  }

  /** Roles once page t is freed: pages that hung directly below it belong to no map any more. */
  ghost function Orphaned(role: seq<Role>, t: nat): seq<Role>
    requires |role| == NPAGES
  {
    seq(NPAGES, q requires 0 <= q < NPAGES => if q == t then Free else if IsLinked(role[q]) && role[q].parent == t
        then Held else role[q])
  }

  /** Free a linked page and clear the entry that pointed to it. */
  ghost function Unlink(s: Mem, t: nat): Mem
    requires FreeList(s) && t < NPAGES && IsLinked(s.role[t])
    requires s.role[t].parent < NPAGES && s.role[t].idx < TABLE_LEN
  {
    SetWord(Push(s, t), s.role[t].parent, s.role[t].idx, 0).(role := Orphaned(s.role, t))
  }

  lemma TargetOf(e: nat, t: nat, table: bool)
    requires Encodes(e, t, table)
    ensures Target(e) == t && Present(e)
  {
    hide PdeAddr, PteAddr;
  }

  lemma PopFreeList(s: Mem)
    requires FreeList(s) && s.free != []
    ensures s.free[0] < NPAGES && s.role[s.free[0]] == Free && FreeList(Pop(s))
  {
    hide FreeLinks, FreeRoles, NoDup;
    HeadFree(s);
    PopLinks(s);
    PopRoles(s);
  }

  lemma HeadFree(s: Mem)
    requires FreeList(s)
    ensures s.free != [] ==> s.free[0] < NPAGES && s.role[s.free[0]] == Free
  {
    hide FreeLinks, NoDup;
  }

  lemma PopLinks(s: Mem)
    requires FreeList(s) && s.free != [] && s.free[0] < NPAGES
    ensures FreeLinks(Pop(s))
  {
    hide Addr, FreeRoles, NoDup;
    var s' := Pop(s);
    forall k | 0 <= k < |s'.free| ensures s'.free[k] < NPAGES && s'.pages[s'.free[k]][0] == LinkTo(s'.free, k + 1) {
      assert s'.free[k] == s.free[k + 1];
    }
  }

  lemma PopRoles(s: Mem)
    requires FreeList(s) && s.free != [] && s.free[0] < NPAGES
    ensures FreeRoles(Pop(s)) && NoDup(Pop(s).free)
  {
    hide FreeLinks;
    var s' := Pop(s);
    forall k | 0 <= k < |s'.free| ensures s'.free[k] < NPAGES && s'.role[s'.free[k]] == Free {
      assert s'.free[k] == s.free[k + 1];
    }
    forall p | 0 <= p < NPAGES && s'.role[p] == Free ensures p in s'.free {
      assert p in s.free && p != s.free[0];
    }
  }

  lemma PopInv(s: Mem)
    requires Inv(s) && s.free != []
    ensures Inv(Pop(s))
  {
    hide PdeAddr, PteAddr, Entry, Addr, FreeList, Encodes, Target, Present;
    PopFreeList(s);
    var s' := Pop(s);
    forall p, i | 0 <= p < NPAGES && 0 <= i < TABLE_LEN && IsTable(s'.role[p]) && Present(s'.pages[p][i])
      ensures ChildOk(s', p, i)
    {
      assert ChildOk(s, p, i);
    }
    forall t | 0 <= t < NPAGES && IsLinked(s'.role[t]) ensures ParentOk(s', t) {
      assert ParentOk(s, t);
    }
  }

  lemma PushFreeList(s: Mem, p: nat)
    requires FreeList(s) && p < NPAGES && s.role[p] != Free
    ensures FreeList(Push(s, p))
  {
    hide PdeAddr, PteAddr, Entry, Addr;
    assert NoDup([p] + s.free);
    PushLinks(s, p);
    assert FreeRoles(Push(s, p)) by {
      forall q | 0 <= q < NPAGES && Push(s, p).role[q] == Free ensures q in [p] + s.free {
        assert q == p || q in s.free;
      }
    }
  }

  lemma PushLinks(s: Mem, p: nat)
    requires FreeList(s) && p < NPAGES && s.role[p] != Free
    ensures FreeLinks(Push(s, p))
  {
    hide PdeAddr, PteAddr, Entry, Addr;
    var s' := Push(s, p);
    forall k | 0 <= k < |s'.free|
      ensures s'.free[k] < NPAGES && s'.pages[s'.free[k]][0] == LinkTo(s'.free, k + 1)
    {
      if k > 0 {
        assert s'.free[k] == s.free[k - 1];
      }
    }
  }

  lemma PushInv(s: Mem, p: nat)
    requires Inv(s) && p < NPAGES && (s.role[p] == Held || s.role[p] == Pgd)
    requires forall q :: 0 <= q < NPAGES && IsLinked(s.role[q]) ==> s.role[q].parent != p
    ensures Inv(Push(s, p))
  {
    hide PdeAddr, PteAddr, Entry, Addr;
    PushFreeList(s, p);
    var s' := Push(s, p);
    forall q, i | 0 <= q < NPAGES && 0 <= i < TABLE_LEN && IsTable(s'.role[q]) && Present(s'.pages[q][i])
      ensures ChildOk(s', q, i)
    {
      assert ChildOk(s, q, i);
    }
    forall t | 0 <= t < NPAGES && IsLinked(s'.role[t]) ensures ParentOk(s', t) {
      assert ParentOk(s, t);
    }
  }

  /** A page that is held, and so not part of any map, can be freed. */
  lemma HeldPush(s: Mem, p: nat)
    requires Inv(s) && p < NPAGES && s.role[p] == Held
    ensures Inv(Push(s, p))
  {
    forall q | 0 <= q < NPAGES && IsLinked(s.role[q]) ensures s.role[q].parent != p {
      assert ParentOk(s, q);
    }
    PushInv(s, p);
  }

  lemma LinkInv(s: Mem, p: nat, i: nat, attr: nat)
    requires Inv(s) && s.free != [] && p < NPAGES && i < TABLE_LEN && AttrOk(attr)
    requires (s.role[p].Pgd? || s.role[p].Pud?) && !Present(s.pages[p][i])
    ensures Inv(Link(s, p, i, attr))
  {
    hide PdeAddr, PteAddr, Entry, Addr;
    EntryRoundTrip(s.free[0], attr, true);
    LinkEntryInv(s, p, i, Entry(s.free[0], attr, TABLE_ENTRY));
  }

  lemma LinkEntryInv(s: Mem, p: nat, i: nat, e: Word)
    requires Inv(s) && s.free != [] && p < NPAGES && i < TABLE_LEN
    requires (s.role[p].Pgd? || s.role[p].Pud?) && !Present(s.pages[p][i]) && Encodes(e, s.free[0], true)
    ensures Inv(LinkEntry(s, p, i, e))
  {
    hide PdeAddr, PteAddr, Entry, Addr;
    var t := s.free[0];
    var s' := LinkEntry(s, p, i, e);
    TargetOf(e, t, true);
    LinkFreeList(s, p, i, e);
    LinkChildren(s, p, i, e);
    forall q | 0 <= q < NPAGES && IsLinked(s'.role[q]) ensures ParentOk(s', q) {
      if q != t {
        assert ParentOk(s, q);
      }
    }
  }

  lemma LinkFreeList(s: Mem, p: nat, i: nat, e: Word)
    requires Inv(s) && s.free != [] && p < NPAGES && i < TABLE_LEN && (s.role[p].Pgd? || s.role[p].Pud?)
    ensures FreeList(LinkEntry(s, p, i, e))
  {
    hide PdeAddr, PteAddr, Entry, Addr, Children, Parents;
    var s' := LinkEntry(s, p, i, e);
    forall k | 0 <= k < |s'.free| ensures s'.free[k] < NPAGES && s'.role[s'.free[k]] == Free
        && s'.pages[s'.free[k]][0] == LinkTo(s'.free, k + 1) {
      assert s'.free[k] == s.free[k + 1];
    }
  }

  lemma LinkChildren(s: Mem, p: nat, i: nat, e: Word)
    requires Inv(s) && s.free != [] && p < NPAGES && i < TABLE_LEN
    requires (s.role[p].Pgd? || s.role[p].Pud?) && !Present(s.pages[p][i]) && Encodes(e, s.free[0], true)
        && Target(e) == s.free[0]
    ensures Children(LinkEntry(s, p, i, e))
  {
    hide PdeAddr, PteAddr, Entry, Addr, ChildOk, NoDup, FreeLinks, Parents, Encodes, Target, Present;
    var s' := LinkEntry(s, p, i, e);
    forall q, j | 0 <= q < NPAGES && 0 <= j < TABLE_LEN && IsTable(s'.role[q]) && Present(s'.pages[q][j])
      ensures ChildOk(s', q, j)
    {
      LinkChild(s, p, i, e, q, j);
    }
  }

  lemma LinkChild(s: Mem, p: nat, i: nat, e: Word, q: nat, j: nat)
    requires Inv(s) && s.free != [] && p < NPAGES && i < TABLE_LEN
    requires (s.role[p].Pgd? || s.role[p].Pud?) && !Present(s.pages[p][i]) && Encodes(e, s.free[0], true)
        && Target(e) == s.free[0]
    requires q < NPAGES && j < TABLE_LEN
    ensures var s' := LinkEntry(s, p, i, e); IsTable(s'.role[q]) && Present(s'.pages[q][j]) ==> ChildOk(s', q, j)
  {
    hide PdeAddr, PteAddr, Entry, Addr, NoDup, FreeLinks, Parents, Encodes, Target;
    var s' := LinkEntry(s, p, i, e);
    if q == p && j == i {
      assert s'.pages[q][j] == e;
    } else if q == s.free[0] {
      assert s'.pages[q][j] == 0;
    } else {
      assert s'.pages[q][j] == s.pages[q][j];
      assert IsTable(s.role[q]) && Present(s.pages[q][j]) ==> ChildOk(s, q, j);
    }
  }

  lemma SetBlockInv(s: Mem, d: nat, k: nat, t: nat, attr: nat)
    requires Inv(s) && d < NPAGES && k < TABLE_LEN && t < NPAGES && AttrOk(attr)
    requires s.role[d].Pmd? && !Present(s.pages[d][k]) && s.role[t] == Held
    ensures Inv(SetBlock(s, d, k, t, attr))
  {
    hide PdeAddr, PteAddr, Entry, Addr;
    var s' := SetBlock(s, d, k, t, attr);
    EntryRoundTrip(t, attr, false);
    TargetOf(Entry(t, attr, BLOCK_ENTRY), t, false);
    forall q, j | 0 <= q < NPAGES && 0 <= j < TABLE_LEN && IsTable(s'.role[q]) && Present(s'.pages[q][j])
      ensures ChildOk(s', q, j)
    {
      if !(q == d && j == k) {
        assert ChildOk(s, q, j);
      }
    }
    forall q | 0 <= q < NPAGES && IsLinked(s'.role[q]) ensures ParentOk(s', q) {
      if q != t {
        assert ParentOk(s, q);
      }
    }
  }

  lemma UnlinkInv(s: Mem, t: nat)
    requires Inv(s) && t < NPAGES && IsLinked(s.role[t]) && ParentOk(s, t)
    requires s.role[t].Pud? ==> forall q :: 0 <= q < NPAGES && IsLinked(s.role[q]) ==> s.role[q].parent != t
    ensures Inv(Unlink(s, t))
  {
    hide PdeAddr, PteAddr, Entry, Addr;
    UnlinkFreeList(s, t);
    UnlinkChildren(s, t);
    UnlinkParents(s, t);
  }

  lemma UnlinkFreeList(s: Mem, t: nat)
    requires FreeList(s) && t < NPAGES && IsLinked(s.role[t]) && ParentOk(s, t)
    ensures FreeList(Unlink(s, t))
  {
    hide PdeAddr, PteAddr, Entry, Addr, FreeLinks, NoDup;
    HeadFree(s);
    PushFreeList(s, t);
    UnlinkLinks(s, t);
  }

  lemma UnlinkLinks(s: Mem, t: nat)
    requires FreeList(s) && t < NPAGES && IsLinked(s.role[t]) && ParentOk(s, t)
    requires (s.free != [] ==> s.free[0] < NPAGES) && FreeList(Push(s, t))
    ensures FreeLinks(Unlink(s, t))
  {
    hide PdeAddr, PteAddr, Entry, Addr, NoDup;
    var s1, s' := Push(s, t), Unlink(s, t);
    forall k | 0 <= k < |s'.free| ensures s'.free[k] < NPAGES && s'.pages[s'.free[k]][0] == LinkTo(s'.free, k + 1) {
      assert s1.pages[s1.free[k]][0] == LinkTo(s1.free, k + 1);
      assert s1.role[s1.free[k]] == Free;
    }
  }

  lemma UnlinkChildren(s: Mem, t: nat)
    requires Inv(s) && t < NPAGES && IsLinked(s.role[t]) && ParentOk(s, t)
    ensures Children(Unlink(s, t))
  {
    hide PdeAddr, PteAddr, Entry, Addr, ChildOk, FreeLinks, FreeRoles, NoDup, Parents;
    var s' := Unlink(s, t);
    forall q, j | 0 <= q < NPAGES && 0 <= j < TABLE_LEN && IsTable(s'.role[q]) && Present(s'.pages[q][j])
      ensures ChildOk(s', q, j)
    {
      UnlinkChild(s, t, q, j);
    }
  }

  lemma UnlinkChild(s: Mem, t: nat, q: nat, j: nat)
    requires Inv(s) && t < NPAGES && IsLinked(s.role[t]) && ParentOk(s, t)
    requires q < NPAGES && j < TABLE_LEN
    requires var s' := Unlink(s, t); IsTable(s'.role[q]) && Present(s'.pages[q][j])
    ensures ChildOk(Unlink(s, t), q, j)
  {
    hide PdeAddr, PteAddr, Entry, Addr, LinkTo, FreeLinks, NoDup, Parents;
    var p, i := s.role[t].parent, s.role[t].idx;
    assert !(q == p && j == i);
    assert s.role[q] == Unlink(s, t).role[q] && q != t;
    assert Unlink(s, t).pages[q][j] == s.pages[q][j];
    assert ChildOk(s, q, j);
  }

  lemma UnlinkParents(s: Mem, t: nat)
    requires Inv(s) && t < NPAGES && IsLinked(s.role[t]) && ParentOk(s, t)
    requires s.role[t].Pud? ==> forall q :: 0 <= q < NPAGES && IsLinked(s.role[q]) ==> s.role[q].parent != t
    ensures Parents(Unlink(s, t))
  {
    hide PdeAddr, PteAddr, Entry, Addr;
    var s' := Unlink(s, t);
    forall q | 0 <= q < NPAGES && IsLinked(s'.role[q]) ensures ParentOk(s', q) {
      assert ParentOk(s, q);
      assert IsLinked(s.role[s.role[q].parent]) ==> ParentOk(s, s.role[q].parent);
    }
  }
}
