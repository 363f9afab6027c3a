/** Whole runs of the kernel: page conservation, reaping, sleeping, round robin, isolation. */
module MachineRuns {
  import opened Machine
  import opened MachineInv

  ghost predicate RunOk(s: Kernel, es: seq<Event>)
    decreases |es|
  {
    es == [] || (Enabled(s, es[0]) && RunOk(Step(s, es[0]), es[1..]))
  }

  ghost function Run(s: Kernel, es: seq<Event>): Kernel
    requires RunOk(s, es)
    decreases |es|
  {
    if es == [] then s else Run(Step(s, es[0]), es[1..])
  }

  // Where pages are

  ghost function Owned(s: Kernel): seq<set<nat>>
    requires Slots(s)
  {
    seq(NUM_PROC, i requires 0 <= i < NUM_PROC => PageSet(s.procs[i].pages))
  }

  /** Every page of the heap is in exactly one of the sets free, own[0], own[1], ... */
  ghost predicate Partition(free: set<nat>, own: seq<set<nat>>, heap: set<nat>) {
    && (forall p :: p in free ==> p in heap)
    && (forall i, p :: 0 <= i < |own| && p in own[i] ==> p in heap && p !in free)
    && (forall i, j, p :: 0 <= i < j < |own| && p in own[i] ==> p !in own[j])
    && (forall p :: p in heap && p !in free ==> exists i :: 0 <= i < |own| && p in own[i])
  }

  /** Each heap page is on the free list or belongs to exactly one process. */
  ghost predicate PagesOk(s: Kernel, heap: set<nat>)
    requires Slots(s)
  {
    Partition(s.free, Owned(s), heap)
  }

  lemma TakePages(free: set<nat>, own: seq<set<nat>>, heap: set<nat>, i: nat, g: set<nat>)
    requires Partition(free, own, heap) && i < |own| && own[i] == {} && g <= free
    ensures Partition(free - g, own[i := g], heap)
  {
    var own' := own[i := g];
    forall p | p in heap && p !in free - g ensures exists j :: 0 <= j < |own'| && p in own'[j] {
      if p in free {
        assert p in own'[i];
      } else {
        var j :| 0 <= j < |own| && p in own[j];
        assert p in own'[j];
      }
    }
  }

  lemma GivePages(free: set<nat>, own: seq<set<nat>>, heap: set<nat>, i: nat)
    requires Partition(free, own, heap) && i < |own|
    ensures Partition(free + own[i], own[i := {}], heap)
  {
    var own' := own[i := {}];
    forall p | p in heap && p !in free + own[i] ensures exists j :: 0 <= j < |own'| && p in own'[j] {
      var j :| 0 <= j < |own| && p in own[j];
      assert p in own'[j];
    }
  }

  ghost predicate SamePages(s: Kernel, s': Kernel)
    requires Slots(s) && Slots(s')
  {
    s'.free == s.free && forall i :: 0 <= i < NUM_PROC ==> s'.procs[i].pages == s.procs[i].pages
  }

  lemma SamePagesOk(s: Kernel, s': Kernel, heap: set<nat>)
    requires Slots(s) && Slots(s') && SamePages(s, s') && PagesOk(s, heap)
    ensures PagesOk(s', heap)
  {
    assert Owned(s') == Owned(s);
  }

  lemma ForkPages(s: Kernel, pages: Pages, heap: set<nat>)
    requires Inv(s) && PagesOk(s, heap) && FindUnused(s.procs) < NUM_PROC && Distinct(pages) && PageSet(pages) <= s.free
    requires Slots(ForkProcess(s, pages))
    ensures PagesOk(ForkProcess(s, pages), heap)
  {
    hide Partition, Located, Pids, Waits, NoLostWakeup;
    var i := FindUnused(s.procs);
    FreshSlot(s);
    TakePages(s.free, Owned(s), heap, i, PageSet(pages));
    assert Owned(ForkProcess(s, pages)) == Owned(s)[i := PageSet(pages)];
  }

  lemma FreshSlot(s: Kernel)
    requires Inv(s) && FindUnused(s.procs) < NUM_PROC
    ensures s.procs[FindUnused(s.procs)] == NO_PROC
  {
    ForkIsFresh(s);
  }

  lemma ReapPages(s: Kernel, k: nat, heap: set<nat>)
    requires Slots(s) && PagesOk(s, heap) && k < |s.killed| && Slots(Reap(s, k))
    ensures PagesOk(Reap(s, k), heap)
  {
    hide Partition;
    var i := s.killed[k];
    GivePages(s.free, Owned(s), heap, i);
    assert Owned(Reap(s, k)) == Owned(s)[i := {}];
  }

  lemma WaitRoundPages(s: Kernel, pid: int, heap: set<nat>)
    requires Inv(s) && s.current != 0 && PagesOk(s, heap)
    ensures Slots(WaitRound(s, pid)) && PagesOk(WaitRound(s, pid), heap)
  {
    WaitRoundInv(s, pid);
    var k := FirstWaiter(s.procs, s.killed, pid);
    if k < |s.killed| {
      ReapInv(s, k);
      ReapPages(s, k, heap);
      SamePagesOk(Reap(s, k), WaitRound(s, pid), heap);
    } else {
      SamePagesOk(s, WaitRound(s, pid), heap);
    }
  }

  /** Steps other than fork and reaping move no page. */
  lemma OtherPages(s: Kernel, e: Event)
    requires Inv(s) && Enabled(s, e) && Slots(Step(s, e))
    requires !e.Fork? && !e.Wait? && !(e.Resume? && Current(s).call.InWait?)
    ensures SamePages(s, Step(s, e))
  {
    hide Core, WakeUp, OneRunning, Sleepers;
    match e
    case Timer => WakeUpSame(s.(ticks := s.ticks + 1), WAIT_TICK);
    case Key => WakeUpSame(s, WAIT_KEY);
    case Exit => ExitPages(s);
    case _ =>
  }

  lemma StepPages(s: Kernel, e: Event, heap: set<nat>)
    requires Inv(s) && Enabled(s, e) && PagesOk(s, heap)
    ensures Slots(Step(s, e)) && PagesOk(Step(s, e), heap)
  {
    StepInv(s, e);
    hide Located, Pids, Waits, NoLostWakeup, PagesOk, WakeUp, SamePages, Yield, SleepOn, WaitRound, ForkProcess,
         ExitProcess;
    if e.Fork? {
      ForkPages(s, e.pages, heap);
    } else if e.Wait? {
      WaitRoundPages(s, e.pid, heap);
    } else if e.Resume? && Current(s).call.InWait? {
      WaitRoundPages(s, Current(s).call.pid, heap);
    } else {
      OtherPages(s, e);
      SamePagesOk(s, Step(s, e), heap);
    }
  }

  lemma ExitPages(s: Kernel)
    requires Inv(s) && s.current != 0
    ensures Slots(ExitProcess(s)) && SamePages(s, ExitProcess(s))
  {
    hide WakeUp, NoDup;
    ExitInv(s);
    KillingLocated(s);
    WakeUpSame(Killing(s), WAIT_CHILD);
    hide Located;
  }

  /** In every state a run reaches, the invariant and the page accounting hold. */
  lemma {:induction false} RunKeeps(s: Kernel, es: seq<Event>, heap: set<nat>)
    requires Inv(s) && PagesOk(s, heap) && RunOk(s, es)
    ensures Inv(Run(s, es)) && PagesOk(Run(s, es), heap)
    decreases |es|
  {
    if es != [] {
      StepInv(s, es[0]);
      StepPages(s, es[0], heap);
      RunKeeps(Step(s, es[0]), es[1..], heap);
    }
  }

  // Counting pages

  ghost function UnionOf(own: seq<set<nat>>): set<nat> {
    if own == [] then {} else own[0] + UnionOf(own[1..])
  }

  ghost function SumOf(own: seq<set<nat>>): nat {
    if own == [] then 0 else |own[0]| + SumOf(own[1..])
  }

  ghost function InUse(procs: seq<Proc>): nat {
    if procs == [] then 0 else (if procs[0].pages.Pages? then 1 else 0) + InUse(procs[1..])
  }

  lemma {:induction false} UnionMembers(own: seq<set<nat>>, p: nat)
    ensures p in UnionOf(own) <==> exists i :: 0 <= i < |own| && p in own[i]
  {
    if own != [] {
      UnionMembers(own[1..], p);
      if p in UnionOf(own[1..]) {
        var i :| 0 <= i < |own[1..]| && p in own[1..][i];
        assert p in own[i + 1];
      }
      if i :| 0 < i < |own| && p in own[i] {
        assert p in own[1..][i - 1];
      }
    }
  }

  ghost predicate Disjoint(own: seq<set<nat>>) {
    forall i, j, p :: 0 <= i < j < |own| && p in own[i] ==> p !in own[j]
  }

  lemma {:induction false} UnionSize(own: seq<set<nat>>)
    requires Disjoint(own)
    ensures |UnionOf(own)| == SumOf(own)
  {
    if own != [] {
      UnionSize(own[1..]);
      forall p | p in own[0] ensures p !in UnionOf(own[1..]) {
        UnionMembers(own[1..], p);
      }
      assert own[0] * UnionOf(own[1..]) == {};
    }
  }

  lemma {:induction false} SumInUse(procs: seq<Proc>, own: seq<set<nat>>)
    requires |own| == |procs|
    requires forall i :: 0 <= i < |procs| ==> own[i] == PageSet(procs[i].pages)
    requires forall i :: 0 <= i < |procs| && procs[i].pages.Pages? ==> Distinct(procs[i].pages)
    ensures SumOf(own) == 5 * InUse(procs)
  {
    if procs != [] {
      SumInUse(procs[1..], own[1..]);
      if procs[0].pages.Pages? {
        FivePages(procs[0].pages);
      }
    }
  }

  lemma FivePages(g: Pages)
    requires Distinct(g)
    ensures |PageSet(g)| == 5
  {
    var a := {g.stack};
    var b := a + {g.pgd};
    var c := b + {g.user};
    var d := c + {g.pud};
    var e := d + {g.pmd};
    assert PageSet(g) == e;
  }

  /** Free pages and five pages for every slot in use make up the heap. */
  lemma PageCount(s: Kernel, heap: set<nat>)
    requires Inv(s) && PagesOk(s, heap)
    ensures |s.free| + 5 * InUse(s.procs) == |heap|
  {
    hide Located, Waits, NoLostWakeup;
    var own := Owned(s);
    UnionSize(own);
    SumInUse(s.procs, own);
    forall p | p in heap ensures p in s.free + UnionOf(own) {
      UnionMembers(own, p);
    }
    forall p | p in UnionOf(own) ensures p in heap && p !in s.free {
      UnionMembers(own, p);
    }
    assert heap == s.free + UnionOf(own) && s.free !! UnionOf(own);
  }

  /** Over any run of fork, exit and wait the count of free pages plus five per process is the same. */
  lemma PagesConserved(s: Kernel, es: seq<Event>, heap: set<nat>)
    requires Inv(s) && PagesOk(s, heap) && RunOk(s, es)
    ensures |Run(s, es).free| + 5 * InUse(Run(s, es).procs) == |s.free| + 5 * InUse(s.procs) == |heap|
  {
    RunKeeps(s, es, heap);
    PageCount(s, heap);
    PageCount(Run(s, es), heap);
  }
}
