/** process.c in place: the process table, the three lists, and the functions that move processes between them. */
module Scheduler {
  import opened Words
  import opened Machine
  import opened Lists
  import I = MachineInv
  import Paging

  ghost function SlotsOf(items: seq<Process>): seq<nat> {
    seq(|items|, k requires 0 <= k < |items| => items[k].slot)
  }

  ghost function ProcOf(p: Process): Proc
    reads p
  {
    Proc(p.pid, p.wait, p.state, p.call, p.pages)
  }

  ghost function ProcsOf(table: seq<Process>): seq<Proc>
    reads table
  {
    seq(|table|, i requires 0 <= i < |table| reads table => ProcOf(table[i]))
  }

  /** Only the idle process exists and runs. */
  function IdleKernel(): Kernel {
    Kernel(seq(NUM_PROC, i => if i == 0 then NO_PROC.(state := Running) else NO_PROC), 0, [], [], [], 1, 0, {})
  }

  lemma IdleInv()
    ensures I.Inv(IdleKernel())
  {
  }

  /** One turn of wake_up's loop: the first waiter becomes ready. */
  ghost function WakeOne(s: Kernel, w: int): Kernel
    requires Slots(s) && FirstWaiter(s.procs, s.waiting, w) < |s.waiting|
  {
    var k := FirstWaiter(s.procs, s.waiting, w);
    var i := s.waiting[k];
    Set(s.(waiting := RemoveAt(s.waiting, k)), i, s.procs[i].(state := Ready)).(ready := s.ready + [i])
  }

  lemma {:induction false} WaitersSplit(procs: seq<Proc>, a: seq<nat>, b: seq<nat>, w: int)
    requires forall j :: 0 <= j < |a| && a[j] < |procs| ==> procs[a[j]].wait != w
    ensures Waiters(procs, a + b, w) == Waiters(procs, b, w) && Others(procs, a + b, w) == a + Others(procs, b, w)
  {
    if a == [] {
      assert a + b == b;
    } else {
      WaitersSplit(procs, a[1..], b, w);
      assert (a + b)[1..] == a[1..] + b;
      assert [a[0]] + (a[1..] + Others(procs, b, w)) == a + Others(procs, b, w);
    }
  }

  /** Waiting depends on the wait fields only. */
  lemma {:induction false} WaitersSame(procs: seq<Proc>, procs': seq<Proc>, list: seq<nat>, w: int)
    requires |procs'| == |procs| && forall i :: 0 <= i < |procs| ==> procs'[i].wait == procs[i].wait
    ensures Waiters(procs', list, w) == Waiters(procs, list, w) && Others(procs', list, w) == Others(procs, list, w)
  {
    if list != [] {
      WaitersSame(procs, procs', list[1..], w);
    }
  }

  lemma WakeOneSlots(s: Kernel, w: int)
    requires Slots(s) && FirstWaiter(s.procs, s.waiting, w) < |s.waiting|
    ensures Slots(WakeOne(s, w)) && |WakeOne(s, w).waiting| < |s.waiting|
  {
  }

  lemma WakeOneLists(s: Kernel, w: int)
    requires Slots(s) && FirstWaiter(s.procs, s.waiting, w) < |s.waiting|
    ensures var s1, i := WakeOne(s, w), s.waiting[FirstWaiter(s.procs, s.waiting, w)];
            && Waiters(s.procs, s.waiting, w) == [i] + Waiters(s1.procs, s1.waiting, w)
            && Others(s.procs, s.waiting, w) == Others(s1.procs, s1.waiting, w)
  {
    hide Waiters, Others;
    var k := FirstWaiter(s.procs, s.waiting, w);
    FirstTaken(s.procs, s.waiting, k, w);
    WaitersSame(s.procs, WakeOne(s, w).procs, RemoveAt(s.waiting, k), w);
  }

  /** Without its first waiter a list has the other waiters, and the same others. */
  lemma FirstTaken(procs: seq<Proc>, list: seq<nat>, k: nat, w: int)
    requires k < |list| && list[k] < |procs| && procs[list[k]].wait == w
    requires forall j :: 0 <= j < k && list[j] < |procs| ==> procs[list[j]].wait != w
    ensures Waiters(procs, list, w) == [list[k]] + Waiters(procs, RemoveAt(list, k), w)
    ensures Others(procs, list, w) == Others(procs, RemoveAt(list, k), w)
  {
    hide Waiters, Others;
    var a, b := list[..k], list[k + 1..];
    assert list == a + ([list[k]] + b);
    WaitersSplit(procs, a, [list[k]] + b, w);
    WaitersSplit(procs, a, b, w);
    HeadWaits(procs, list[k], b, w);
  }

  lemma HeadWaits(procs: seq<Proc>, x: nat, b: seq<nat>, w: int)
    requires x < |procs| && procs[x].wait == w
    ensures Waiters(procs, [x] + b, w) == [x] + Waiters(procs, b, w) && Others(procs, [x] + b, w) == Others(procs, b, w)
  {
    assert ([x] + b)[1..] == b;
  }

  lemma MarkOneMore(procs: seq<Proc>, i: nat, woken: seq<nat>)
    requires i < |procs|
    ensures MarkReady(procs[i := procs[i].(state := Ready)], woken) == MarkReady(procs, [i] + woken)
  {
  }

  /** The loop of wake_up computes the same result from the state after one turn. */
  lemma WakeOneKeeps(s: Kernel, w: int)
    requires Slots(s) && FirstWaiter(s.procs, s.waiting, w) < |s.waiting|
    ensures Slots(WakeOne(s, w)) && |WakeOne(s, w).waiting| < |s.waiting|
    ensures Machine.WakeUp(WakeOne(s, w), w) == Machine.WakeUp(s, w)
  {
    hide FirstWaiter, Waiters, Others, MarkReady, RemoveAt, Slots;
    var s1, i := WakeOne(s, w), s.waiting[FirstWaiter(s.procs, s.waiting, w)];
    WakeOneSlots(s, w);
    WakeOneLists(s, w);
    var rest := Waiters(s1.procs, s1.waiting, w);
    MarkOneMore(s.procs, i, rest);
    assert s1.ready + rest == s.ready + ([i] + rest);
  }

  lemma NoneToWake(s: Kernel, w: int)
    requires Slots(s) && FirstWaiter(s.procs, s.waiting, w) == |s.waiting|
    ensures Machine.WakeUp(s, w) == s
  {
    WaitersSplit(s.procs, s.waiting, [], w);
    assert s.waiting + [] == s.waiting && s.ready + [] == s.ready;
    assert MarkReady(s.procs, []) == s.procs;
  }

  lemma RunningUnlisted(s: Kernel)
    requires I.Core(s) && I.OneRunning(s)
    ensures s.current !in s.ready && s.current !in s.waiting && s.current !in s.killed && 0 !in s.ready
  {
    hide I.Pids, I.Waits, I.NoLostWakeup, I.NoDup;
  }

  lemma {:induction false} FirstUnused(procs: seq<Proc>, i: nat)
    requires i <= |procs| && forall j :: 0 <= j < i ==> procs[j].state != Unused
    ensures i <= Machine.FindUnused(procs)
        && (i < |procs| && procs[i].state == Unused ==> Machine.FindUnused(procs) == i)
  {
    if i > 0 {
      FirstUnused(procs[1..], i - 1);
    }
  }

  lemma UnusedUnlisted(s: Kernel, i: nat)
    requires I.Inv(s) && i < NUM_PROC && s.procs[i].state == Unused
    ensures i !in s.ready && i !in s.waiting && i !in s.killed && s.procs[i] == NO_PROC && i != s.current && i != 0
  {
    hide I.NoLostWakeup, I.Waits, I.NoDup;
  }

  /** V2P and P2V: kernel addresses of the linear map and physical addresses. */
  function V2P(va: Word): Word { (va + WORD_LIMIT - Paging.KERNEL_BASE) % WORD_LIMIT }

  function P2V(pa: Word): Word { (pa + Paging.KERNEL_BASE) % WORD_LIMIT }

  lemma PhysicalAgain(pa: Word)
    ensures V2P(P2V(pa)) == pa
  {
  }

  class ProcessControl {
    const table: seq<Process>
    const readyList: HeadList
    const waitList: HeadList
    const killList: HeadList
    var currentProcess: Process
    var pidNum: int
    var ticks: nat
    var ttbr0: Word
    ghost var free: set<nat>

    /** The table has its processes in slot order; the lists share no process. */
    ghost predicate Linked()
      reads `currentProcess, table, readyList, waitList, killList, readyList.items, waitList.items, killList.items
    {
      && TableOk()
      && Member(currentProcess)
      && readyList != waitList && readyList != killList && waitList != killList
      && ListOk(readyList) && ListOk(waitList) && ListOk(killList)
      && Apart(readyList.items, waitList.items) && Apart(readyList.items, killList.items)
      && Apart(waitList.items, killList.items)
    }

    ghost predicate ListOk(list: HeadList)
      reads list, list.items
    {
      list.Valid() && InTable(list.items)
    }

    ghost predicate Member(p: Process) {
      p.slot < |table| && table[p.slot] == p
    }

    ghost predicate InTable(items: seq<Process>) {
      forall k :: 0 <= k < |items| ==> Member(items[k])
    }

    static ghost predicate Apart(a: seq<Process>, b: seq<Process>) {
      forall p :: p in a ==> p !in b
    }

    /** The value of the transition system this object holds. */
    ghost function Abs(): Kernel
      reads `currentProcess, `pidNum, `ticks, `free, table, readyList, waitList, killList
    {
      Kernel(ProcsOf(table), currentProcess.slot, SlotsOf(readyList.items), SlotsOf(waitList.items),
          SlotsOf(killList.items),
             pidNum, ticks, free)
    }

    /** The page-table register holds the map of the running process. */
    ghost predicate Loaded()
      reads `currentProcess, `ttbr0, currentProcess`pageMap
    {
      ttbr0 == V2P(currentProcess.pageMap)
    }

    ghost predicate Valid()
      reads `currentProcess, `pidNum, `ticks, `free, `ttbr0, table, readyList, waitList, killList
      reads readyList.items, waitList.items, killList.items
    {
      Linked() && Loaded() && I.Inv(Abs())
    }

    lemma LinkedSlots()
      requires Linked()
      ensures Slots(Abs())
    {
    }

    /** The zeroed table with the idle process in slot 0, running on the boot code's map. */
    constructor (table: seq<Process>, pgd: Word)
      requires |table| == NUM_PROC && forall i :: 0 <= i < NUM_PROC ==>
          table[i].slot == i && ProcOf(table[i]) == NO_PROC
      modifies table[0]
      ensures Linked() && this.table == table && fresh(readyList) && fresh(waitList) && fresh(killList)
      ensures Abs() == IdleKernel() && Valid() && ttbr0 == pgd
    {
      PhysicalAgain(pgd);
      IdleInv();
      hide V2P, P2V, I.Inv;
      this.table := table;
      readyList := new HeadList();
      waitList := new HeadList();
      killList := new HeadList();
      currentProcess := table[0];
      pidNum, ticks, ttbr0, free := 1, 0, pgd, {};
      new;
      table[0].state := Running;
      table[0].pid := 0;
      table[0].pageMap := P2V(pgd);
      assert ProcsOf(table) == IdleKernel().procs;
    }

    /** Load the page table of the new process and swap the kernel stacks. */
    method SwitchProcess(prev: Process, current: Process)
      requires prev != current
      modifies `ttbr0
      ensures ttbr0 == V2P(current.pageMap)
    {
      ttbr0 := V2P(current.pageMap);
    }

    ghost predicate TableOk() {
      |table| == NUM_PROC && forall i :: 0 <= i < NUM_PROC ==> table[i].slot == i
    }

    twostate lemma OneChanged(p: Process)
      requires TableOk() && Member(p) && forall q :: q in table && q != p ==> ProcOf(q) == old(ProcOf(q))
      ensures ProcsOf(table) == old(ProcsOf(table))[p.slot := ProcOf(p)]
    {
      forall i | 0 <= i < NUM_PROC && i != p.slot ensures ProcOf(table[i]) == old(ProcOf(table[i])) {
        assert table[i] in table;
      }
    }

    /** Fields other than the links may change, and another process may become current. */
    twostate lemma StillLinked()
      requires old(Linked()) && unchanged(readyList, waitList, killList) && Member(currentProcess)
      requires forall p :: p in table ==> p.next == old(p.next)
      ensures Linked()
    {
      MembersOf(readyList.items);
      MembersOf(waitList.items);
      MembersOf(killList.items);
      StillOk(readyList);
      StillOk(waitList);
      StillOk(killList);
    }

    twostate lemma StillOk(list: HeadList)
      requires old(ListOk(list)) && unchanged(list) && forall p :: p in list.items ==> p.next == old(p.next)
      ensures ListOk(list)
    {
      list.StillValid();
    }

    lemma MembersOf(items: seq<Process>)
      requires InTable(items)
      ensures forall p :: p in items ==> p in table
    {
      forall p | p in items ensures p in table {
        var k :| 0 <= k < |items| && items[k] == p;
        assert Member(items[k]);
      }
    }

    lemma HeadSlots(items: seq<Process>)
      ensures |SlotsOf(items)| == |items|
      ensures items != [] ==> SlotsOf(items)[0] == items[0].slot && SlotsOf(items[1..]) == SlotsOf(items)[1..]
    {
    }

    /** The head of the ready list, taken off it, or the idle process. */
    method NextProcess() returns (current: Process)
      requires Linked()
      requires if readyList.items == [] then currentProcess != table[0] else currentProcess != readyList.items[0]
      modifies readyList
      ensures Linked() && Member(current) && current in table && current != currentProcess
      ensures current.slot == NextSlot(old(Abs())) < NUM_PROC
      ensures Abs() == var s := old(Abs()); s.(ready := if s.ready == [] then [] else s.ready[1..])
    {
      HeadSlots(readyList.items);
      current := table[0];
      if !readyList.IsEmpty() {
        current := readyList.RemoveHead();
      }
    }

    method MakeCurrent(p: Process)
      requires Linked() && Member(p) && p in table
      modifies p`state, `currentProcess
      ensures Linked() && currentProcess == p
      ensures Slots(old(Abs()))
          && Abs() == Set(old(Abs()), p.slot, old(Abs()).procs[p.slot].(state := Running)).(current := p.slot)
    {
      LinkedSlots();
      p.state := Running;
      currentProcess := p;
      StillLinked();
      hide Linked, SlotsOf;
      OneChanged(p);
    }

    /** Make the head of the ready list, or the idle process, current. It is never the process that calls. */
    method Schedule()
      requires Linked()
      requires if readyList.items == [] then currentProcess != table[0] else currentProcess != readyList.items[0]
      modifies this, table`state, readyList
      ensures Linked() && NextSlot(old(Abs())) < NUM_PROC && Abs() == Machine.Schedule(old(Abs()))
      ensures currentProcess != old(currentProcess) && Loaded()
    {
      hide Linked, Abs;
      var prev := currentProcess;
      var current := NextProcess();
      MakeCurrent(current);
      SwitchProcess(prev, current);
    }

    ghost predicate Listed(p: Process)
      reads readyList, waitList, killList
    {
      p in readyList.items || p in waitList.items || p in killList.items
    }

    function FirstOther(list: HeadList): HeadList { if list == readyList then waitList else readyList }

    function SecondOther(list: HeadList): HeadList { if list == killList then waitList else killList }

    lemma OthersApart(list: HeadList)
      requires Linked() && list in {readyList, waitList, killList}
      ensures list != FirstOther(list) && list != SecondOther(list) && ListOk(list) && ListOk(FirstOther(list))
          && ListOk(SecondOther(list))
      ensures Apart(FirstOther(list).items, list.items) && Apart(SecondOther(list).items, list.items)
      ensures Apart(FirstOther(list).items, SecondOther(list).items) && FirstOther(list) != SecondOther(list)
    {
      hide ListOk;
    }

    lemma LinkedAgain(list: HeadList)
      requires TableOk() && Member(currentProcess) && list in {readyList, waitList, killList}
      requires readyList != waitList && readyList != killList && waitList != killList
      requires ListOk(list) && ListOk(FirstOther(list)) && ListOk(SecondOther(list))
      requires Apart(FirstOther(list).items, list.items) && Apart(SecondOther(list).items, list.items)
      requires Apart(FirstOther(list).items, SecondOther(list).items)
      ensures Linked()
    {
      hide ListOk;
    }

    /** One list and the links of its processes changed; the other two lists still stand. */
    twostate lemma Relinked(list: HeadList)
      requires old(Linked()) && list in {readyList, waitList, killList} && ListOk(list)
      requires currentProcess == old(currentProcess)
      requires unchanged(FirstOther(list)) && unchanged(SecondOther(list))
      requires Apart(FirstOther(list).items, list.items) && Apart(SecondOther(list).items, list.items)
      requires forall q :: q in table && q !in old(list.items) && q !in list.items ==> q.next == old(q.next)
      ensures Linked()
    {
      assert old(ListOk(FirstOther(list)) && ListOk(SecondOther(list)));
      MembersOf(FirstOther(list).items);
      MembersOf(SecondOther(list).items);
      hide HeadList.Valid, InTable;
      StillOk(FirstOther(list));
      StillOk(SecondOther(list));
      LinkedAgain(list);
    }

    /** The abstract list a head stands for, and the state with that list replaced. */
    ghost function ListIn(s: Kernel, list: HeadList): seq<nat> {
      if list == readyList then s.ready else if list == waitList then s.waiting else s.killed
    }

    ghost function WithList(s: Kernel, list: HeadList, slots: seq<nat>): Kernel {
      if list == readyList then s.(ready := slots) else if list == waitList then s.(waiting := slots)
          else s.(killed := slots)
    }

    lemma AppendedList(list: HeadList, p: Process)
      requires Linked() && list in {readyList, waitList, killList} && Member(p) && p in table && !Listed(p)
      ensures InTable(list.items + [p]) && SlotsOf(list.items + [p]) == SlotsOf(list.items) + [p.slot]
      ensures Apart(FirstOther(list).items, list.items + [p]) && Apart(SecondOther(list).items, list.items + [p])
      ensures forall q :: q in list.items ==> q in table
    {
      hide HeadList.Valid;
      OthersApart(list);
      MembersOf(list.items);
    }

    lemma ShorterList(list: HeadList, k: nat)
      requires Linked() && list in {readyList, waitList, killList} && k < |list.items|
      ensures InTable(Without(list.items, k)) && Member(list.items[k]) && list.items[k] in table
      ensures SlotsOf(Without(list.items, k)) == RemoveAt(SlotsOf(list.items), k)
      ensures Apart(FirstOther(list).items, Without(list.items, k))
          && Apart(SecondOther(list).items, Without(list.items, k))
      ensures list.items[k] !in Without(list.items, k) && list.items[k] !in FirstOther(list).items
          && list.items[k] !in SecondOther(list).items
      ensures forall q :: q in list.items ==> q in table
    {
      OthersApart(list);
      MembersOf(list.items);
      WithoutSlots(list.items, k);
      hide HeadList.Valid;
      assert list.items[k] in list.items;
    }

    /** Put a process that is on no list at the end of one. */
    method Append(list: HeadList, p: Process)
      requires Linked() && list in {readyList, waitList, killList} && Member(p) && p in table && !Listed(p)
      modifies list, table`next
      ensures Linked() && list.items == old(list.items) + [p]
      ensures unchanged(FirstOther(list)) && unchanged(SecondOther(list))
      ensures Abs() == WithList(old(Abs()), list, ListIn(old(Abs()), list) + [p.slot])
    {
      hide Linked, SlotsOf, HeadList.Valid, Apart;
      OthersApart(list);
      AppendedList(list, p);
      list.AppendTail(p);
      Relinked(list);
      assert ProcsOf(table) == old(ProcsOf(table));
    }

    /** Change the state, wait and call fields of the current process. */
    method SetCurrent(state: PState, wait: int, ghost call: Call)
      requires Linked()
      modifies currentProcess`state, currentProcess`wait, currentProcess`call
      ensures Linked()
      ensures Slots(old(Abs()))
          && Abs() == Set(old(Abs()), currentProcess.slot,
          Current(old(Abs())).(state := state, wait := wait, call := call))
    {
      LinkedSlots();
      currentProcess.state := state;
      currentProcess.wait := wait;
      currentProcess.call := call;
      StillLinked();
      hide Linked, SlotsOf;
      OneChanged(currentProcess);
    }

    /** Take the first process waiting for w off the wait list or the kill list. */
    method TakeItem(list: HeadList, w: int) returns (p: Process?)
      requires Linked() && list in {waitList, killList}
      modifies list, table`next
      ensures Linked() && ProcsOf(table) == old(ProcsOf(table))
      ensures unchanged(FirstOther(list)) && unchanged(SecondOther(list))
      ensures var items := old(list.items); var k := old(FirstWaiting(items, w));
              if k == |items| then p == null && list.items == items
              else p == items[k] && Member(items[k]) && items[k] in table && !Listed(items[k]) &&
                   list.items == Without(items, k)
    {
      hide Linked, SlotsOf, HeadList.Valid, FirstWaiting, Without, Apart;
      OthersApart(list);
      MembersOf(list.items);
      ghost var k := FirstWaiting(list.items, w);
      if k < |list.items| {
        ShorterList(list, k);
      }
      p := list.Remove(w);
      Relinked(list);
      assert ProcsOf(table) == old(ProcsOf(table));
    }

    method Take(list: HeadList, w: int) returns (p: Process?)
      requires Linked() && list in {waitList, killList}
      modifies list, table`next
      ensures Linked()
      ensures var s := old(Abs()); var slots := ListIn(s, list); var k := FirstWaiter(s.procs, slots, w);
              if k == |slots| then p == null && Abs() == s
              else p != null && Member(p) && p in table && !Listed(p) && p.slot == slots[k] &&
                   Abs() == WithList(s, list, RemoveAt(slots, k))
    {
      OthersApart(list);
      SameFirst(list.items, w);
      HeadSlots(list.items);
      ghost var k := FirstWaiting(list.items, w);
      if k < |list.items| {
        WithoutSlots(list.items, k);
        assert SlotsOf(list.items)[k] == list.items[k].slot;
      }
      hide FirstWaiting, FirstWaiter, Linked, SlotsOf, Without, RemoveAt, HeadList.Valid;
      p := TakeItem(list, w);
    }

    lemma SameFirst(items: seq<Process>, w: int)
      requires TableOk() && InTable(items)
      ensures FirstWaiting(items, w) == FirstWaiter(ProcsOf(table), SlotsOf(items), w)
    {
      var k := FirstWaiter(ProcsOf(table), SlotsOf(items), w);
      forall j | 0 <= j < |items| ensures ProcsOf(table)[items[j].slot].wait == items[j].wait {
        assert Member(items[j]);
      }
      forall j | 0 <= j < k ensures items[j].wait != w {
        assert SlotsOf(items)[j] == items[j].slot && Member(items[j]);
      }
      FirstWaitingIs(items, w, k);
    }

    lemma WithoutSlots(items: seq<Process>, k: nat)
      requires k < |items| && NoRepeat(items)
      ensures SlotsOf(Without(items, k)) == RemoveAt(SlotsOf(items), k) && items[k] !in Without(items, k)
    {
    }

    method SetState(p: Process, state: PState)
      requires Linked() && Member(p) && p in table
      modifies p`state
      ensures Linked() && Abs() == Set(old(Abs()), p.slot, old(Abs()).procs[p.slot].(state := state))
    {
      p.state := state;
      StillLinked();
      hide Linked, SlotsOf;
      OneChanged(p);
    }

    method MakeReady(p: Process)
      requires Linked() && Member(p) && p in table && !Listed(p)
      modifies readyList, table`next, p`state
      ensures Linked() && unchanged(waitList)
      ensures Abs() == Set(old(Abs()), p.slot,
          old(Abs()).procs[p.slot].(state := Ready)).(ready := old(Abs()).ready + [p.slot])
    {
      SetState(p, Ready);
      Append(readyList, p);
    }

    /** Move every process that waits for w from the wait list to the end of the ready list, in order. */
    method WakeUp(w: int)
      requires Linked()
      modifies readyList, waitList, table`next, table`state
      ensures Linked() && Abs() == Machine.WakeUp(old(Abs()), w)
    {
      LinkedSlots();
      hide Linked, Abs, Machine.WakeUp, FirstWaiter, RemoveAt, Slots;
      ghost var s, t := Abs(), Abs();
      var process := Take(waitList, w);
      while process != null
        invariant Linked() && Slots(t) && Machine.WakeUp(t, w) == Machine.WakeUp(s, w)
        invariant var k := FirstWaiter(t.procs, t.waiting, w);
                  if process == null then k == |t.waiting| && Abs() == t
                  else k < |t.waiting| && Member(process) && process in table && !Listed(process) &&
                       process.slot == t.waiting[k] &&
                       Abs() == t.(waiting := RemoveAt(t.waiting, k))
        decreases |t.waiting|, process != null
      {
        MakeReady(process);
        WakeOneKeeps(t, w);
        t := WakeOne(t, w);
        assert Abs() == t;
        process := Take(waitList, w);
      }
      NoneToWake(t, w);
    }

    lemma Unlisted(items: seq<Process>, p: Process)
      ensures p in items ==> p.slot in SlotsOf(items)
    {
      if p in items {
        var k :| 0 <= k < |items| && items[k] == p;
        assert SlotsOf(items)[k] == p.slot;
      }
    }

    /** A running process is on no list, and the idle process on none ever. */
    lemma RunningIsFree()
      requires Linked() && I.Core(Abs()) && I.OneRunning(Abs())
      ensures currentProcess in table && !Listed(currentProcess)
      ensures readyList.items != [] ==> readyList.items[0] != currentProcess && readyList.items[0] != table[0]
    {
      RunningUnlisted(Abs());
      hide I.Core, I.OneRunning;
      Unlisted(readyList.items, currentProcess);
      Unlisted(waitList.items, currentProcess);
      Unlisted(killList.items, currentProcess);
      Unlisted(readyList.items, table[0]);
    }

    /** yield() up to its call of schedule(). */
    method PutBack()
      requires Linked() && I.Core(Abs()) && I.OneRunning(Abs())
      modifies readyList, currentProcess`state, table`next
      ensures Linked() && Abs() == I.PutBack(old(Abs()))
      ensures old(readyList.items) <= readyList.items
    {
      hide Linked, I.Core, I.OneRunning;
      LinkedSlots();
      RunningIsFree();
      CurrentIsMember();
      var process := currentProcess;
      SetState(process, Ready);
      if process.pid != 0 {
        Append(readyList, process);
      }
    }

    lemma CurrentIsMember()
      requires Linked()
      ensures Member(currentProcess) && currentProcess in table && Current(Abs()) == ProcOf(currentProcess)
    {
    }

    /** Let the next ready process run, if there is one. */
    method Yield()
      requires Linked() && Loaded() && I.Core(Abs()) && I.OneRunning(Abs())
      modifies this, table`state, table`next, readyList
      ensures Linked() && Loaded() && Abs() == Machine.Yield(old(Abs()))
    {
      hide I.Core, I.OneRunning, ProcsOf;
      if readyList.IsEmpty() {
        return;
      }
      RunningIsFree();
      PutBack();
      Schedule();
    }

    lemma SpaceToSwitch()
      requires Linked() && I.Core(Abs()) && I.OneRunning(Abs()) && currentProcess.slot != 0
      ensures if readyList.items == [] then currentProcess != table[0] else currentProcess != readyList.items[0]
    {
      RunningIsFree();
    }

    /** sleep(w), called inside the given blocking call. */
    method SleepFor(w: int, ghost call: Call)
      requires Valid() && currentProcess.slot != 0
      modifies this, table`state, table`wait, table`call, table`next, readyList, waitList
      ensures Linked() && Loaded() && Abs() == SleepOn(old(Abs()), w, call)
    {
      hide I.Core, I.OneRunning, I.Sleepers, ProcsOf, Linked;
      LinkedSlots();
      CurrentIsMember();
      SpaceToSwitch();
      RunningIsFree();
      SetCurrent(Sleep, w, call);
      Append(waitList, currentProcess);
      Schedule();
    }

    /** exit() up to its call of schedule(). */
    method MarkKilled()
      requires Valid() && currentProcess.slot != 0
      modifies currentProcess`state, currentProcess`wait, currentProcess`call, table`next, killList
      ensures Linked() && Abs() == I.Killing(old(Abs()))
    {
      hide I.Core, I.OneRunning, I.Sleepers, ProcsOf, Linked;
      LinkedSlots();
      CurrentIsMember();
      RunningIsFree();
      SetCurrent(Killed, currentProcess.pid, currentProcess.call);
      Append(killList, currentProcess);
    }

    lemma AfterDeath(s: Kernel)
      requires I.Inv(s) && s.current != 0
      ensures Slots(I.Killing(s)) && Slots(Die(s)) && Die(s) == Machine.WakeUp(I.Killing(s), WAIT_CHILD)
          && Die(s).current == s.current
      ensures Die(s).ready != [] ==> Die(s).ready[0] != s.current
    {
      hide I.NoDup, I.NoLostWakeup, I.Pids;
      I.KillingLocated(s);
      I.DieCore(s);
      I.WakeUpSame(I.Killing(s), WAIT_CHILD);
      assert Die(s).ready != [] ==> Die(s).ready[0] in Die(s).ready;
    }

    /** exit(). */
    method Exit()
      requires Valid() && currentProcess.slot != 0
      modifies this, table`state, table`wait, table`call, table`next, readyList, waitList, killList
      ensures Valid() && Abs() == ExitProcess(old(Abs()))
    {
      I.ExitInv(Abs());
      hide I.Inv, ProcsOf, Linked, Die, Machine.WakeUp;
      ghost var s := Abs();
      LinkedSlots();
      CurrentIsMember();
      AfterDeath(s);
      MarkKilled();
      WakeUp(WAIT_CHILD);
      SwitchFrom(s.current);
      Schedule();
    }

    lemma SwitchFrom(i: nat)
      requires Linked() && Abs().current == i != 0 && (Abs().ready != [] ==> Abs().ready[0] != i)
      ensures if readyList.items == [] then currentProcess != table[0] else currentProcess != readyList.items[0]
    {
      HeadSlots(readyList.items);
    }

    /** The timer interrupt: a tick, a wake-up of all sleepers, and then yield() from the exception handler. */
    method TimerInterrupt()
      requires Valid()
      modifies this, table`state, table`next, readyList, waitList
      ensures Valid() && Abs() == Machine.Yield(TickWake(old(Abs())))
    {
      hide I.Core, I.OneRunning, I.Sleepers, ProcsOf, Linked, Machine.WakeUp, Machine.Yield;
      LinkedSlots();
      I.TickWakeCore(Abs());
      I.YieldInv(TickWake(Abs()));
      ticks := ticks + 1;
      WakeUp(WAIT_TICK);
      Yield();
    }

    /** One round of sys_sleep: sleep again, or leave the call. */
    method SleepRound(since: nat, n: nat)
      requires Valid() && currentProcess.slot != 0 && since <= ticks
      modifies this, table`state, table`wait, table`call, table`next, readyList, waitList
      ensures Valid() && Abs() == Machine.SleepRound(old(Abs()), since, n)
    {
      I.SleepRoundInv(Abs(), since, n);
      hide I.Core, I.OneRunning, I.Sleepers, ProcsOf, Linked, SleepOn;
      LinkedSlots();
      if ticks - since < n {
        SleepFor(WAIT_TICK, InSleep(since, n));
      } else {
        CurrentIsMember();
        LeaveCall();
      }
    }

    /** Back to user code: only the ghost call field knows. */
    method LeaveCall()
      requires Linked()
      modifies currentProcess`state, currentProcess`wait, currentProcess`call
      ensures Linked() && Slots(old(Abs())) && Abs() == Return(old(Abs()))
    {
      CurrentIsMember();
      LinkedSlots();
      hide Linked, ProcsOf;
      SetCurrent(currentProcess.state, currentProcess.wait, User);
    }

    /** find_unused_process(): the first unused slot, if any. */
    method FindUnused() returns (p: Process?)
      requires TableOk()
      ensures var i := Machine.FindUnused(ProcsOf(table));
              if i == NUM_PROC then p == null else p == table[i]
    {
      for i := 0 to NUM_PROC
        invariant forall j :: 0 <= j < i ==> table[j].state != Unused
      {
        if table[i].state == Unused {
          FirstUnused(ProcsOf(table), i);
          return table[i];
        }
      }
      FirstUnused(ProcsOf(table), NUM_PROC);
      return null;
    }

    /** memset of a reaped process; its pages have been freed. */
    method ClearProcess(p: Process)
      requires Linked() && Member(p) && p in table && !Listed(p) && p != currentProcess
      modifies p, `free
      ensures Linked() && ProcOf(p) == NO_PROC && p.pageMap == p.stack == 0
      ensures Slots(old(Abs()))
          && Abs() == Set(old(Abs()), p.slot, NO_PROC).(free := old(Abs()).free + PageSet(old(p.pages)))
    {
      LinkedTable();
      AllMembers();
      hide Linked, SlotsOf, ProcsOf, HeadList.Valid, InTable, Apart;
      free := free + PageSet(p.pages);
      p.next := null;
      p.pid := 0;
      p.wait := 0;
      p.state := Unused;
      p.stack := 0;
      p.pageMap := 0;
      p.call := User;
      p.pages := NoPages;
      RelinkedWithout(p);
      OneChanged(p);
    }

    lemma AllMembers()
      requires Linked()
      ensures forall q :: q in readyList.items || q in waitList.items || q in killList.items ==> q in table
    {
      MembersOf(readyList.items);
      MembersOf(waitList.items);
      MembersOf(killList.items);
    }

    /** A process on no list may change in every field. */
    twostate lemma RelinkedWithout(p: Process)
      requires old(Linked()) && unchanged(readyList, waitList, killList) && currentProcess == old(currentProcess)
          && !Listed(p)
      requires forall q :: q in table && q != p ==> q.next == old(q.next)
      ensures Linked()
    {
      assert old(ListOk(readyList) && ListOk(waitList) && ListOk(killList));
      MembersOf(readyList.items);
      MembersOf(waitList.items);
      MembersOf(killList.items);
      StillOk(readyList);
      StillOk(waitList);
      StillOk(killList);
    }

    /** Fill in the structure of a new process and make it ready. */
    method StartProcess(p: Process, stack: Word, pageMap: Word, ghost g: Pages)
      requires Linked() && Member(p) && p in table && !Listed(p) && ProcOf(p) == NO_PROC && p != currentProcess
      modifies `pidNum, `free, p, readyList, table`next
      ensures Linked() && p.stack == stack && p.pageMap == pageMap && p.pages == g
      ensures var s := old(Abs());
              Slots(s) && Abs() == Set(s, p.slot, Proc(s.nextPid, 0, Ready, User, g)).(
                                     nextPid := s.nextPid + 1, ready := s.ready + [p.slot], free := s.free - PageSet(g))
    {
      hide Linked, SlotsOf, ProcsOf;
      Fill(p, stack, pageMap, g);
      Append(readyList, p);
    }

    lemma LinkedTable()
      requires Linked()
      ensures TableOk() && Member(currentProcess) && Slots(Abs())
    {
    }

    method Fill(p: Process, stack: Word, pageMap: Word, ghost g: Pages)
      requires Linked() && Member(p) && p in table && !Listed(p) && ProcOf(p) == NO_PROC && p != currentProcess
      modifies `pidNum, `free, p`pid, p`state, p`stack, p`pageMap, p`pages
      ensures Linked() && p.stack == stack && p.pageMap == pageMap && p.pages == g
      ensures var s := old(Abs());
              Slots(s) && Abs() == Set(s, p.slot, Proc(s.nextPid, 0, Ready, User, g)).(
                                     nextPid := s.nextPid + 1, free := s.free - PageSet(g))
    {
      LinkedTable();
      hide Linked, SlotsOf, ProcsOf;
      free := free - PageSet(g);
      p.stack := stack;
      p.pageMap := pageMap;
      p.pages := g;
      p.state := Ready;
      p.pid := pidNum;
      pidNum := pidNum + 1;
      StillLinked();
      OneChanged(p);
    }

    /** An unused process is on no list. */
    lemma UnusedIsFree(p: Process)
      requires Linked() && I.Inv(Abs()) && Member(p) && p.state == Unused
      ensures p in table && !Listed(p) && ProcOf(p) == NO_PROC && p != currentProcess
          && Machine.FindUnused(ProcsOf(table)) <= p.slot != 0
    {
      UnusedUnlisted(Abs(), p.slot);
      hide I.Inv, HeadList.Valid;
      Unlisted(readyList.items, p);
      Unlisted(waitList.items, p);
      Unlisted(killList.items, p);
      assert ProcsOf(table)[p.slot].state == Unused;
    }
  }
}
