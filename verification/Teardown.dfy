/** free_page, free_pmd, free_pud and free_vm as functions on memory values, and what they free. */
module Teardown {
  import opened Words
  import opened Paging
  import opened Walks

  ghost predicate PudOf(role: seq<Role>, root: nat, p: nat) {
    p < |role| && role[p].Pud? && role[p].parent == root
  }

  ghost predicate PmdOf(role: seq<Role>, root: nat, p: nat) {
    p < |role| && role[p].Pmd? && PudOf(role, root, role[p].parent)
  }

  ghost predicate LeafOf(role: seq<Role>, root: nat, p: nat) {
    p < |role| && role[p].Block? && PmdOf(role, root, role[p].parent)
  }

  /** The pages a map consists of: its root, its tables, and the pages it maps. */
  ghost predicate InTree(role: seq<Role>, root: nat, p: nat) {
    p == root || PudOf(role, root, p) || PmdOf(role, root, p) || LeafOf(role, root, p)
  }

  ghost predicate Childless(role: seq<Role>, p: nat) {
    forall q :: 0 <= q < |role| && IsLinked(role[q]) ==> role[q].parent != p
  }

  /** free' is free with more pages pushed in front. */
  ghost predicate Pushed(free: seq<nat>, free': seq<nat>) {
    |free| <= |free'| && free'[|free'| - |free|..] == free
  }

  /** Pages that stay off the free list, other than p, keep their contents. */
  ghost predicate OnlyFreedChange(s: Mem, s': Mem, p: nat) {
    && |s.pages| == |s'.pages| == |s'.role|
    && forall q :: 0 <= q < |s'.role| && q != p && s'.role[q] != Free ==> s'.pages[q] == s.pages[q]
  }

  /** Free the page below entry i of table p, when there is one, and clear the entry. */
  ghost function UnlinkEntry(s: Mem, p: nat, i: nat): Mem
    requires Inv(s) && p < NPAGES && i < TABLE_LEN && IsTable(s.role[p])
  {
    if Present(s.pages[p][i]) then
      assert ChildOk(s, p, i);
      Unlink(s, Target(s.pages[p][i]))
    else s
  }

  /** Roles after the first n entries of table p were freed. */
  ghost function RowFreed(role: seq<Role>, p: nat, n: nat): seq<Role>
    requires |role| == NPAGES
  {
    seq(NPAGES, q requires 0 <= q < NPAGES =>
      if BelowEntry(role, p, n, q) then Free
      else if IsLinked(role[q]) && BelowEntry(role, p, n, role[q].parent) then Held
      else role[q])
  }

  ghost predicate BelowEntry(role: seq<Role>, p: nat, n: nat, q: nat) {
    q < |role| && IsLinked(role[q]) && role[q].parent == p && role[q].idx < n
  }

  /** A table whose children may be freed without leaving tables behind. */
  ghost predicate RowTable(s: Mem, p: nat) {
    && Shape(s) && p < NPAGES
    && (s.role[p].Pud? || s.role[p].Pmd?
        || (s.role[p].Pgd? && forall u :: 0 <= u < NPAGES && PudOf(s.role, p, u) ==> Childless(s.role, u)))
  }

  lemma UnlinkEntryKeeps(s: Mem, p: nat, i: nat)
    requires Inv(s) && RowTable(s, p) && i < TABLE_LEN
    ensures var s' := UnlinkEntry(s, p, i);
            && Inv(s') && Pushed(s.free, s'.free) && OnlyFreedChange(s, s', p)
            && s'.role[p] == s.role[p]
            && !Present(s'.pages[p][i])
            && (forall j :: 0 <= j < TABLE_LEN && j != i ==> s'.pages[p][j] == s.pages[p][j])
  {
    hide PdeAddr, PteAddr, Entry, Addr, NoDup, FreeRoles, FreeLinks, Encodes;
    if Present(s.pages[p][i]) {
      assert ChildOk(s, p, i);
      var t := Target(s.pages[p][i]);
      assert ParentOk(s, t);
      assert s.role[t].Pud? ==> PudOf(s.role, p, t);
      UnlinkInv(s, t);
      assert t != p;
      assert ([t] + s.free)[1..] == s.free;
    }
  }

  /** Entry n-1 has at most one page below it, so freeing it extends the freed row by one. */
  lemma RowStep(s: Mem, s1: Mem, p: nat, n: nat)
    requires Inv(s) && Inv(s1) && RowTable(s1, p) && p < NPAGES && 0 < n <= TABLE_LEN
    requires s1.role == RowFreed(s.role, p, n - 1) && s.role[p] == s1.role[p]
    requires s1.pages[p][n - 1] == s.pages[p][n - 1]
    ensures UnlinkEntry(s1, p, n - 1).role == RowFreed(s.role, p, n)
  {
    hide PdeAddr, PteAddr, Entry, Addr, FreeLinks, FreeRoles, NoDup;
    var role', goal := UnlinkEntry(s1, p, n - 1).role, RowFreed(s.role, p, n);
    if Present(s.pages[p][n - 1]) {
      assert ChildOk(s, p, n - 1);
      var t := Target(s.pages[p][n - 1]);
      forall q | 0 <= q < NPAGES && BelowEntry(s.role, p, n, q) && s.role[q].idx == n - 1 ensures q == t {
        assert ParentOk(s, q);
      }
      assert role' == Orphaned(s1.role, t);
    } else {
      forall q | 0 <= q < NPAGES && BelowEntry(s.role, p, n, q) ensures s.role[q].idx < n - 1 {
        assert ParentOk(s, q);
      }
    }
  }

  /** s' is s after the pages below the first n entries of table p were freed. */
  ghost predicate RowDone(s: Mem, s': Mem, p: nat, n: nat)
    requires Shape(s) && p < NPAGES && n <= TABLE_LEN
  {
    && Inv(s') && RowTable(s', p) && s'.role[p] == s.role[p] && s'.role == RowFreed(s.role, p, n)
    && Pushed(s.free, s'.free) && OnlyFreedChange(s, s', p)
    && (forall j :: 0 <= j < n ==> !Present(s'.pages[p][j]))
    && (forall j :: n <= j < TABLE_LEN ==> s'.pages[p][j] == s.pages[p][j])
  }

  lemma RowDoneStep(s: Mem, s1: Mem, p: nat, n: nat)
    requires Inv(s) && RowTable(s, p) && 0 < n <= TABLE_LEN && RowDone(s, s1, p, n - 1)
    ensures RowDone(s, UnlinkEntry(s1, p, n - 1), p, n)
  {
    hide PdeAddr, PteAddr, Entry, Addr, Inv, UnlinkEntry;
    UnlinkEntryKeeps(s1, p, n - 1);
    RowStep(s, s1, p, n);
    RowTableKept(s, p, n);
    var s' := UnlinkEntry(s1, p, n - 1);
    assert Pushed(s.free, s'.free);
    assert OnlyFreedChange(s, s', p) by {
      forall q | 0 <= q < NPAGES && q != p && s'.role[q] != Free ensures s'.pages[q] == s.pages[q] {
        assert s1.role[q] != Free;
      }
    }
  }

  /** Free the pages below the first n entries of table p. */
  ghost function UnlinkRow(s: Mem, p: nat, n: nat): (s': Mem)
    requires Inv(s) && RowTable(s, p) && n <= TABLE_LEN
    ensures RowDone(s, s', p, n)
  {
    if n == 0 then
      assert RowFreed(s.role, p, 0) == s.role;
      s
    else
      var s1 := UnlinkRow(s, p, n - 1);
      RowDoneStep(s, s1, p, n);
      UnlinkEntry(s1, p, n - 1)
  }

  lemma RowTableKept(s: Mem, p: nat, n: nat)
    requires Inv(s) && RowTable(s, p)
    ensures s.role[p].Pgd? ==> forall u :: 0 <= u < NPAGES && PudOf(RowFreed(s.role, p, n), p, u) ==>
        Childless(RowFreed(s.role, p, n), u)
  {
    if s.role[p].Pgd? {
      forall u | 0 <= u < NPAGES && PudOf(RowFreed(s.role, p, n), p, u) ensures Childless(RowFreed(s.role, p, n), u) {
        assert PudOf(s.role, p, u);
      }
    }
  }

  ghost predicate PmdFreed(role: seq<Role>, root: nat, n: nat, q: nat) {
    PmdOf(role, root, q) && role[role[q].parent].idx < n
  }

  /** Roles after the level-2 tables below the first n entries of root were freed. */
  ghost function PmdsFreed(role: seq<Role>, root: nat, n: nat): seq<Role>
    requires |role| == NPAGES
  {
    seq(NPAGES, q requires 0 <= q < NPAGES =>
      if PmdFreed(role, root, n, q) then Free
      else if role[q].Block? && PmdFreed(role, root, n, role[q].parent) then Held
      else role[q])
  }

  ghost predicate PmdsDone(s: Mem, s': Mem, root: nat, n: nat)
    requires Shape(s) && root < NPAGES
  {
    && Inv(s') && s'.role[root].Pgd? && s'.role == PmdsFreed(s.role, root, n) && Pushed(s.free, s'.free)
    && TablesChange(s, s', root)
  }

  /** Besides freed pages, only level-1 tables of root change. */
  ghost predicate TablesChange(s: Mem, s': Mem, root: nat)
    requires Shape(s) && Shape(s')
  {
    forall q :: 0 <= q < NPAGES && s'.role[q] != Free && !PudOf(s.role, root, q) ==> s'.pages[q] == s.pages[q]
  }

  lemma RowRoles(s: Mem, root: nat, n: nat, u: nat)
    requires Inv(s) && root < NPAGES && u < NPAGES && s.role[u] == Pud(root, n)
    ensures RowFreed(PmdsFreed(s.role, root, n), u, TABLE_LEN) == PmdsFreed(s.role, root, n + 1)
  {
    hide FreeList;
    forall q | 0 <= q < NPAGES
      ensures RowFreed(PmdsFreed(s.role, root, n), u, TABLE_LEN)[q] == PmdsFreed(s.role, root, n + 1)[q]
    {
      if IsLinked(s.role[q]) {
        assert ParentOk(s, q);
        if IsLinked(s.role[s.role[q].parent]) {
          assert ParentOk(s, s.role[q].parent);
        }
      }
      RowRole(s, root, n, u, q);
    }
  }

  lemma RowRole(s: Mem, root: nat, n: nat, u: nat, q: nat)
    requires Inv(s) && root < NPAGES && u < NPAGES && s.role[u] == Pud(root, n) && q < NPAGES
    requires IsLinked(s.role[q]) ==>
        ParentOk(s, q) && (IsLinked(s.role[s.role[q].parent]) ==> ParentOk(s, s.role[q].parent))
    ensures RowFreed(PmdsFreed(s.role, root, n), u, TABLE_LEN)[q] == PmdsFreed(s.role, root, n + 1)[q]
  {
    hide FreeList, Children, Encodes, Target;
    forall u' | 0 <= u' < NPAGES && s.role[u'] == Pud(root, n) ensures u' == u {
      assert ParentOk(s, u') && ParentOk(s, u);
    }
  }

  /** One step of free_pmd's outer loop: free the level-2 tables below entry i of the root. */
  ghost function UnlinkBelow(s: Mem, root: nat, i: nat): Mem
    requires Inv(s) && root < NPAGES && i < TABLE_LEN && s.role[root].Pgd?
  {
    if Present(s.pages[root][i]) then
      assert ChildOk(s, root, i);
      UnlinkRow(s, Target(s.pages[root][i]), TABLE_LEN)
    else s
  }

  lemma PmdsDoneStep(s: Mem, s1: Mem, root: nat, n: nat)
    requires Inv(s) && root < NPAGES && s.role[root].Pgd? && n < TABLE_LEN && PmdsDone(s, s1, root, n)
    ensures PmdsDone(s, UnlinkBelow(s1, root, n), root, n + 1)
  {
    hide PdeAddr, PteAddr, FreeList, PmdsFreed;
    PmdsFreedOnly(s.role, root, n + 1, root);
    assert s1.pages[root] == s.pages[root];
    if Present(s.pages[root][n]) {
      assert ChildOk(s, root, n);
      var u := Target(s.pages[root][n]);
      RowRoles(s, root, n, u);
      assert ChildOk(s1, root, n);
      var s2 := UnlinkRow(s1, u, TABLE_LEN);
      assert RowDone(s1, s2, u, TABLE_LEN);
      assert s2.role == PmdsFreed(s.role, root, n + 1);
      PushedTrans(s.free, s1.free, s2.free);
      forall q | 0 <= q < NPAGES && s2.role[q] != Free && !PudOf(s.role, root, q) ensures s2.pages[q] == s.pages[q] {
        assert s2.role[q] == RowFreed(s1.role, u, TABLE_LEN)[q];
      }
    } else {
      NoneFreed(s, root, n);
    }
  }

  lemma PmdsDoneZero(s: Mem, root: nat)
    requires Inv(s) && root < NPAGES && s.role[root].Pgd?
    ensures PmdsDone(s, s, root, 0)
  {
    hide FreeList, Children, Parents;
    assert PmdsFreed(s.role, root, 0) == s.role;
  }

  lemma PmdsFreedOnly(role: seq<Role>, root: nat, n: nat, q: nat)
    requires |role| == NPAGES && q < NPAGES
    ensures !role[q].Pmd? && !role[q].Block? ==> PmdsFreed(role, root, n)[q] == role[q]
  {
  }

  lemma NoneFreed(s: Mem, root: nat, n: nat)
    requires Inv(s) && root < NPAGES && s.role[root].Pgd? && n < TABLE_LEN && !Present(s.pages[root][n])
    ensures PmdsFreed(s.role, root, n) == PmdsFreed(s.role, root, n + 1)
  {
    hide FreeList, Children, Target;
    forall q | 0 <= q < NPAGES && PmdFreed(s.role, root, n + 1, q) ensures PmdFreed(s.role, root, n, q) {
      assert ParentOk(s, s.role[q].parent);
    }
  }

  lemma PushedTrans(f: seq<nat>, g: seq<nat>, h: seq<nat>)
    requires Pushed(f, g) && Pushed(g, h)
    ensures Pushed(f, h)
  {
    assert h[|h| - |f|..] == h[|h| - |g|..][|g| - |f|..];
  }

  /** free_pmd's work on the first n entries of the root. The inner guard holds by UnlinkPmdsDone. */
  ghost function UnlinkPmds(s: Mem, root: nat, n: nat): Mem
    requires n <= TABLE_LEN
  {
    if n == 0 then s
    else
      var s1 := UnlinkPmds(s, root, n - 1);
      if Inv(s1) && root < NPAGES && s1.role[root].Pgd? then UnlinkBelow(s1, root, n - 1) else s1
  }

  lemma {:induction false} UnlinkPmdsDone(s: Mem, root: nat, n: nat)
    requires Inv(s) && root < NPAGES && s.role[root].Pgd? && n <= TABLE_LEN
    ensures PmdsDone(s, UnlinkPmds(s, root, n), root, n)
  {
    hide FreeList, Children, Parents, PmdsFreed, Pushed, UnlinkBelow, TablesChange, IsTable;
    if n == 0 {
      PmdsDoneZero(s, root);
    } else {
      UnlinkPmdsDone(s, root, n - 1);
      PmdsDoneStep(s, UnlinkPmds(s, root, n - 1), root, n - 1);
    }
  }

  /** free_page(root, v). */
  ghost function FreePage(s: Mem, root: nat, v: nat): Mem
    requires Inv(s) && root < NPAGES && s.role[root].Pgd?
  {
    PmdForIs(s, root, v);
    var d := PmdFor(s, root, v);
    if d.None? then s else UnlinkEntry(s, d.value, L2(v))
  }

  /** The page mapped at v's block by root, if p is it. */
  ghost predicate IsLeafAt(role: seq<Role>, root: nat, v: nat, p: nat) {
    && LeafOf(role, root, p) && role[p].idx == L2(v)
    && role[role[p].parent].idx == L1(v) && role[role[role[p].parent].parent].idx == L0(v)
  }

  /** Roles after free_vm(root): the user page and all tables are free, other mapped pages are stranded. */
  ghost function AfterFree(role: seq<Role>, root: nat): seq<Role>
    requires |role| == NPAGES
  {
    seq(NPAGES, q requires 0 <= q < NPAGES =>
      if LeafOf(role, root, q) && !IsLeafAt(role, root, USER_VA, q) then Held
      else if InTree(role, root, q) then Free
      else role[q])
  }

  /** The memory after free_vm(root). */
  ghost function FreeVm(s: Mem, root: nat): Mem
    requires Inv(s) && root < NPAGES && s.role[root].Pgd?
  {
    FreePageKeeps(s, root, USER_VA);
    var s1 := FreePage(s, root, USER_VA);
    var s2 := UnlinkPmds(s1, root, TABLE_LEN);
    UnlinkPmdsDone(s1, root, TABLE_LEN);
    NoPmdsLeft(s1, s2, root);
    var s3 := UnlinkRow(s2, root, TABLE_LEN);
    Push(s3, root)
  }

  lemma FreePageKeeps(s: Mem, root: nat, v: nat)
    requires Inv(s) && root < NPAGES && s.role[root].Pgd?
    ensures var s' := FreePage(s, root, v);
            && Inv(s') && Pushed(s.free, s'.free) && s'.role[root].Pgd?
            && (forall q :: 0 <= q < NPAGES ==> s'.role[q] == if IsLeafAt(s.role, root, v, q) then Free else s.role[q])
            && (forall q :: 0 <= q < NPAGES && s'.role[q] != Free && !PmdOf(s.role, root, q) ==>
                s'.pages[q] == s.pages[q])
  {
    hide PdeAddr, PteAddr, L0, L1, L2, FreeList;
    PmdForIs(s, root, v);
    Indices(v);
    var d := PmdFor(s, root, v);
    var s' := FreePage(s, root, v);
    forall q | 0 <= q < NPAGES && IsLeafAt(s.role, root, v, q)
      ensures d.Some? && Present(s.pages[d.value][L2(v)]) && Target(s.pages[d.value][L2(v)]) == q
    {
      assert ParentOk(s, q) && ParentOk(s, s.role[q].parent) && ParentOk(s, s.role[s.role[q].parent].parent);
    }
    if d.Some? {
      UnlinkEntryKeeps(s, d.value, L2(v));
      if Present(s.pages[d.value][L2(v)]) {
        assert ChildOk(s, d.value, L2(v));
        var t := Target(s.pages[d.value][L2(v)]);
        assert s'.role == Orphaned(s.role, t);
        assert Childless(s.role, t) by {
          forall q | 0 <= q < NPAGES && IsLinked(s.role[q]) ensures s.role[q].parent != t {
            assert ParentOk(s, q);
          }
        }
      }
    }
  }

  lemma NoPmdsLeft(s: Mem, s': Mem, root: nat)
    requires Inv(s) && root < NPAGES && s.role[root].Pgd? && PmdsDone(s, s', root, TABLE_LEN)
    ensures RowTable(s', root)
  {
    forall u | 0 <= u < NPAGES && PudOf(s'.role, root, u) ensures Childless(s'.role, u) {
      forall q | 0 <= q < NPAGES && IsLinked(s'.role[q]) ensures s'.role[q].parent != u {
        assert ParentOk(s', q) && ParentOk(s', u);
        assert s.role[u] == s'.role[u] && s.role[q] == s'.role[q];
        assert ParentOk(s, u);
      }
    }
  }

  /**
   free_vm: what it frees and what it leaves alone. Each page of the tree is pushed once (the free
   list never repeats a page), pages outside the tree keep their contents, older free pages stay in place.
   */
  lemma FreeVmDone(s: Mem, root: nat)
    requires Inv(s) && root < NPAGES && s.role[root].Pgd?
    ensures var s' := FreeVm(s, root);
            && Inv(s') && s'.role == AfterFree(s.role, root) && Pushed(s.free, s'.free)
            && (forall q ::
                0 <= q < NPAGES && s'.role[q] != Free && !PudOf(s.role, root, q) && !PmdOf(s.role, root, q) ==>
                s'.pages[q] == s.pages[q])
  {
    hide PdeAddr, PteAddr, FreeList, Children, Parents, PmdsFreed, RowFreed, Pushed, PudOf, PmdOf, AfterFree, IsLeafAt;
    FreePageKeeps(s, root, USER_VA);
    var s1 := FreePage(s, root, USER_VA);
    var s2 := UnlinkPmds(s1, root, TABLE_LEN);
    UnlinkPmdsDone(s1, root, TABLE_LEN);
    NoPmdsLeft(s1, s2, root);
    var s3 := UnlinkRow(s2, root, TABLE_LEN);
    RootChildless(s2, s3, root);
    PushInv(s3, root);
    FreeVmPushed(s.free, s1.free, s2.free, s3.free, root);
    FreeVmContents(s, s1, s2, s3, root);
    AfterFreeLength(s.role, root);
    forall q | 0 <= q < NPAGES
      ensures s3.role[root := Free][q] == AfterFree(s.role, root)[q]
    {
      FreeVmRole(s, s1, s2, s3, root, q);
    }
  }

  lemma AfterFreeLength(role: seq<Role>, root: nat)
    requires |role| == NPAGES
    ensures |AfterFree(role, root)| == NPAGES
  {
  }

  lemma RootChildless(s: Mem, s': Mem, root: nat)
    requires Shape(s) && root < NPAGES && RowDone(s, s', root, TABLE_LEN)
    ensures Childless(s'.role, root)
  {
    forall q | 0 <= q < NPAGES && IsLinked(s'.role[q]) ensures s'.role[q].parent != root {
      assert ParentOk(s', q);
    }
  }

  lemma FreeVmPushed(f: seq<nat>, f1: seq<nat>, f2: seq<nat>, f3: seq<nat>, root: nat)
    requires Pushed(f, f1) && Pushed(f1, f2) && Pushed(f2, f3)
    ensures Pushed(f, [root] + f3)
  {
    PushedTrans(f, f1, f2);
    PushedTrans(f, f2, f3);
    assert ([root] + f3)[1..] == f3;
    PushedTrans(f, f3, [root] + f3);
  }

  lemma FreeVmContents(s: Mem, s1: Mem, s2: Mem, s3: Mem, root: nat)
    requires Shape(s) && Shape(s1) && Shape(s2) && Shape(s3) && root < NPAGES && s.role[root].Pgd?
    requires forall p :: 0 <= p < NPAGES ==>
        s1.role[p] == if IsLeafAt(s.role, root, USER_VA, p) then Free else s.role[p]
    requires forall p :: 0 <= p < NPAGES && s1.role[p] != Free && !PmdOf(s.role, root, p) ==> s1.pages[p] == s.pages[p]
    requires s2.role == PmdsFreed(s1.role, root, TABLE_LEN)
    requires forall p :: 0 <= p < NPAGES && s2.role[p] != Free && !PudOf(s1.role, root, p) ==>
        s2.pages[p] == s1.pages[p]
    requires s3.role == RowFreed(s2.role, root, TABLE_LEN) && OnlyFreedChange(s2, s3, root)
    ensures forall q ::
        0 <= q < NPAGES && q != root && s3.role[q] != Free && !PudOf(s.role, root, q) && !PmdOf(s.role, root, q) ==>
        s3.pages[q] == s.pages[q]
  {
    hide L0, L1, L2;
    forall q | 0 <= q < NPAGES && q != root && s3.role[q] != Free && !PudOf(s.role, root, q) && !PmdOf(s.role, root, q)
      ensures s3.pages[q] == s.pages[q]
    {
      assert s2.role[q] != Free && s1.role[q] != Free;
    }
  }

  lemma FreeVmRole(s: Mem, s1: Mem, s2: Mem, s3: Mem, root: nat, q: nat)
    requires Inv(s) && Inv(s1) && root < NPAGES && s.role[root].Pgd? && q < NPAGES
    requires forall p :: 0 <= p < NPAGES ==>
        s1.role[p] == if IsLeafAt(s.role, root, USER_VA, p) then Free else s.role[p]
    requires Shape(s2) && Shape(s3)
    requires s2.role == PmdsFreed(s1.role, root, TABLE_LEN) && s3.role == RowFreed(s2.role, root, TABLE_LEN)
    ensures s3.role[root := Free][q] == AfterFree(s.role, root)[q]
  {
    hide FreeList, Children, Target, L0, L1, L2;
    if IsLinked(s.role[q]) {
      assert ParentOk(s, q);
      var d := s.role[q].parent;
      if IsLinked(s.role[d]) {
        assert ParentOk(s, d);
        if IsLinked(s.role[s.role[d].parent]) {
          assert ParentOk(s, s.role[d].parent);
        }
      }
    }
  }

  /** Freeing one map changes no translation of another. */
  lemma FreeVmKeepsOtherMaps(s: Mem, root: nat, r: nat, va: nat)
    requires Inv(s) && root < NPAGES && s.role[root].Pgd?
    requires r < NPAGES && s.role[r].Pgd? && r != root
    ensures FreeVm(s, root).role[r].Pgd?
    ensures Walk(FreeVm(s, root).pages, r, va) == Walk(s.pages, r, va)
  {
    hide Walk, FreeVm, L0, L1, L2, PdeAddr, PteAddr, FreeList;
    FreeVmDone(s, root);
    var s' := FreeVm(s, root);
    WalkIsBlockFrame(s, r, va);
    WalkIsBlockFrame(s', r, va);
    Indices(va);
    NextIs(s, r, L0(va));
    PmdForIs(s, r, va);
  }

  lemma IndicesOf(i: nat, j: nat, k: nat)
    requires i < 512 && j < 512 && k < 512
    ensures exists va: nat :: L0(va) == i && L1(va) == j && L2(va) == k
  {
    var b := (i * 512 + j) * 512 + k;
    var va := b * PAGE_SIZE;
    assert va / PAGE_SIZE == b;
    DivMod(va, PAGE_SIZE, 512);
    DivMod(va, PAGE_SIZE, 0x40000);
    DivMod(b, 512, 512);
    DivUnique(b, 512, i * 512 + j, k);
    DivUnique(i * 512 + j, 512, i, j);
    assert L0(va) == i && L1(va) == j && L2(va) == k;
  }

  /** The address a mapped page is reached at. */
  lemma LeafAddress(s: Mem, root: nat, q: nat) returns (va: nat)
    requires Inv(s) && root < NPAGES && s.role[root].Pgd? && q < NPAGES && LeafOf(s.role, root, q)
    ensures BlockFrame(s.pages, root, va) == Some(q)
    ensures IsLeafAt(s.role, root, USER_VA, q) <==> BlockOf(va) == BlockOf(USER_VA)
  {
    hide L0, L1, L2, BlockOf, FreeList;
    assert ParentOk(s, q);
    var d := s.role[q].parent;
    assert ParentOk(s, d);
    var u := s.role[d].parent;
    assert ParentOk(s, u);
    IndicesOf(s.role[u].idx, s.role[d].idx, s.role[q].idx);
    va :| L0(va) == s.role[u].idx && L1(va) == s.role[d].idx && L2(va) == s.role[q].idx;
    BlockIndices(va, USER_VA);
  }

  lemma LeafIs(s: Mem, root: nat, va: nat)
    requires Inv(s) && root < NPAGES && s.role[root].Pgd? && BlockFrame(s.pages, root, va).Some?
    ensures var q := BlockFrame(s.pages, root, va).value;
            q < NPAGES && LeafOf(s.role, root, q)
                && (IsLeafAt(s.role, root, USER_VA, q) <==> BlockOf(va) == BlockOf(USER_VA))
  {
    hide L0, L1, L2, BlockOf, FreeList;
    Indices(va);
    PmdForIs(s, root, va);
    NextIs(s, PmdFor(s, root, va).value, L2(va));
    BlockIndices(va, USER_VA);
  }

  ghost predicate MapsOnlyUserBlock(s: Mem, root: nat) {
    forall va: nat :: Walk(s.pages, root, va).Some? ==> BlockOf(va) == BlockOf(USER_VA)
  }

  /** free_vm gives every page of the map back exactly when the map has no block besides 0x400000. */
  lemma NothingStranded(s: Mem, root: nat)
    requires Inv(s) && root < NPAGES && s.role[root].Pgd?
    ensures (forall q :: 0 <= q < NPAGES && InTree(s.role, root, q) ==> FreeVm(s, root).role[q] == Free) <==>
        MapsOnlyUserBlock(s, root)
  {
    hide Walk, FreeVm, FreeList, BlockOf, L0, L1, L2;
    FreeVmDone(s, root);
    if q :| 0 <= q < NPAGES && InTree(s.role, root, q) && AfterFree(s.role, root)[q] != Free {
      var va := LeafAddress(s, root, q);
      WalkIsBlockFrame(s, root, va);
      assert !MapsOnlyUserBlock(s, root);
    } else {
      forall va: nat | Walk(s.pages, root, va).Some? ensures BlockOf(va) == BlockOf(USER_VA) {
        WalkIsBlockFrame(s, root, va);
        LeafIs(s, root, va);
        var q := BlockFrame(s.pages, root, va).value;
        assert InTree(s.role, root, q);
      }
    }
  }

  lemma EnsurePmdNewRoles(s: Mem, root: nat, v: nat, attr: nat)
    requires Inv(s) && root < NPAGES && s.role[root].Pgd? && AttrOk(attr)
    ensures var s' := EnsurePmd(s, root, v, attr);
            Inv(s') && forall q :: 0 <= q < NPAGES && s.role[q] == Free && s'.role[q] != Free ==>
                PudOf(s'.role, root, q) || PmdOf(s'.role, root, q)
  {
    hide PdeAddr, PteAddr, Entry, Addr, L0, L1, L2, FreeLinks, Children, Parents, Next;
    Indices(v);
    EnsureTableKeeps(s, root, L0(v), attr);
    EnsurePmdKeeps(s, root, v, attr);
    var s1 := EnsureTable(s, root, L0(v), attr);
    var u := Next(s1.pages, root, L0(v));
    if u.Some? {
      EnsureTableKeeps(s1, u.value, L1(v), attr);
    }
  }

  /** Pages map_page allocates become tables of the map; the mapped page becomes its leaf at v. */
  lemma MapPageNewRoles(s: Mem, root: nat, v: nat, t: nat, attr: nat)
    requires Inv(s) && root < NPAGES && s.role[root].Pgd? && AttrOk(attr)
    requires t < NPAGES && s.role[t] == Held && BlockFrame(s.pages, root, v).None?
    ensures var s' := MapPage(s, root, v, t, attr);
            && Shape(s')
            && (forall q :: 0 <= q < NPAGES && s.role[q] == Free && s'.role[q] != Free ==>
                PudOf(s'.role, root, q) || PmdOf(s'.role, root, q))
            && (MapPageOk(s, root, v) ==> IsLeafAt(s'.role, root, v, t))
  {
    hide PdeAddr, PteAddr, Entry, Addr, L0, L1, L2, FreeList, Children, Parents, Next, EnsurePmd, MissingTables,
         BlockFrame;
    EnsurePmdKeeps(s, root, v, attr);
    EnsurePmdNewRoles(s, root, v, attr);
    PmdForIs(EnsurePmd(s, root, v, attr), root, v);
  }

  /** map_page followed by free_vm frees the mapped page and otherwise what free_vm alone would free. */
  lemma MapThenFree(s: Mem, root: nat, t: nat, attr: nat)
    requires Inv(s) && root < NPAGES && s.role[root].Pgd? && AttrOk(attr)
    requires t < NPAGES && s.role[t] == Held && BlockFrame(s.pages, root, USER_VA).None?
    ensures AfterFree(MapPage(s, root, USER_VA, t, attr).role, root) ==
            if MapPageOk(s, root, USER_VA) then AfterFree(s.role, root)[t := Free] else AfterFree(s.role, root)
  {
    hide PdeAddr, PteAddr, L0, L1, L2, FreeList, Children, MapPage, MapPageOk, BlockFrame;
    MapPageInv(s, root, USER_VA, t, attr);
    MapPageNewRoles(s, root, USER_VA, t, attr);
    var s' := MapPage(s, root, USER_VA, t, attr);
    forall q | 0 <= q < NPAGES && q != t ensures AfterFree(s'.role, root)[q] == AfterFree(s.role, root)[q] {
      if IsLinked(s.role[q]) {
        assert ParentOk(s, q);
        var d := s.role[q].parent;
        if IsLinked(s.role[d]) {
          assert ParentOk(s, d);
          if IsLinked(s.role[s.role[d].parent]) {
            assert ParentOk(s, s.role[d].parent);
          }
        }
      }
    }
  }

  lemma AfterFreeOfHeld(role: seq<Role>, root: nat, t: nat)
    requires |role| == NPAGES && t < NPAGES && t != root && (role[t] == Held || role[t] == Free)
    ensures AfterFree(role[t := Free], root) == AfterFree(role, root)[t := Free]
  {
    hide L0, L1, L2;
  }

  /** Taking a page and mapping it at 0x400000: whether that works, and what freeing the map then leaves. */
  lemma MapUserPage(s: Mem, d: nat)
    requires Inv(s) && s.free != [] && d < NPAGES && s.role[d].Pgd? && Walk(s.pages, d, USER_VA).None?
    ensures var s1, t := TakeZeroed(s), s.free[0];
            && Inv(s1) && s1.role[t] == Held && s1.role[d].Pgd? && Walk(s1.pages, d, USER_VA).None?
            && var s2 := MapPage(s1, d, USER_VA, t, UVM_ATTR);
            && Inv(s2) && s2.role[d].Pgd?
            && (MapPageOk(s1, d, USER_VA) <==> |s.free| >= 1 + MissingTables(s, d, USER_VA))
            && (MapPageOk(s1, d, USER_VA) ==> AfterFree(s2.role, d) == AfterFree(s.role, d) && s2.role[t].Block?
                                              && s2.free == s.free[1 + MissingTables(s, d, USER_VA)..])
            && (!MapPageOk(s1, d, USER_VA) ==>
                s2.role[t] == Held && AfterFree(s2.role[t := Free], d) == AfterFree(s.role, d))
  {
    hide PdeAddr, PteAddr, L0, L1, L2, FreeLinks, Children, Parents, MapPage, BlockFrame, Walk, AfterFree,
         MissingTables;
    var s1, t := TakeZeroed(s), s.free[0];
    TakeZeroedInv(s);
    TakeZeroedWalks(s, d, USER_VA);
    WalkIsBlockFrame(s1, d, USER_VA);
    MapPageInv(s1, d, USER_VA, t, UVM_ATTR);
    MapThenFree(s1, d, t, UVM_ATTR);
    AfterFreeOfHeld(s1.role, d, t);
    assert s1.role[t := Free] == s.role;
    if !MapPageOk(s1, d, USER_VA) {
      AfterFreeOfHeld(MapPage(s1, d, USER_VA, t, UVM_ATTR).role, d, t);
    }
  }
}
