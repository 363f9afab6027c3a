/** What holds in every state between two events, and why each event keeps it. */
module MachineInv {
  import opened Machine

  ghost predicate NoDup(list: seq<nat>) {
    forall j, k :: 0 <= j < k < |list| ==> list[j] != list[k]
  }

  /** A process is on the list that matches its state, once; the idle process is on none. */
  ghost predicate Located(s: Kernel)
    requires Slots(s)
  {
    && NoDup(s.ready) && NoDup(s.waiting) && NoDup(s.killed)
    && 0 !in s.ready && 0 !in s.waiting && 0 !in s.killed
    && (forall i :: 0 < i < NUM_PROC ==> (s.procs[i].state == Ready <==> i in s.ready))
    && (forall i :: 0 < i < NUM_PROC ==> (s.procs[i].state == Sleep <==> i in s.waiting))
    && (forall i :: 0 < i < NUM_PROC ==> (s.procs[i].state == Killed <==> i in s.killed))
  }

  ghost predicate IdleOk(s: Kernel)
    requires Slots(s)
  {
    s.procs[0].pid == 0 && s.procs[0].state in {Running, Ready} && s.procs[0].call.User? && s.procs[0].pages.NoPages?
  }

  /** Unused slots are all zero; the others have their own pid, below the next one, and five pages. */
  ghost predicate Pids(s: Kernel)
    requires Slots(s)
  {
    && s.nextPid >= 1
    && (forall i :: 0 < i < NUM_PROC && s.procs[i].state == Unused ==> s.procs[i] == NO_PROC)
    && (forall i :: 0 < i < NUM_PROC && s.procs[i].state != Unused ==>
        1 <= s.procs[i].pid < s.nextPid && Distinct(s.procs[i].pages))
    && (forall i, j :: 0 < i < j < NUM_PROC && s.procs[i].state != Unused && s.procs[j].state != Unused ==>
        s.procs[i].pid != s.procs[j].pid)
  }

  function WaitKeyOf(call: Call): int {
    match call
    case InWait(_) => WAIT_CHILD
    case InSleep(_, _) => WAIT_TICK
    case InReadKey => WAIT_KEY
    case User => 0
  }

  /** The wait field of a sleeping process says which call it sleeps in; that of a killed one is its pid. */
  ghost predicate Waits(s: Kernel)
    requires Slots(s)
  {
    forall i :: 0 < i < NUM_PROC ==>
      && (s.procs[i].state == Sleep ==> !s.procs[i].call.User? && s.procs[i].wait == WaitKeyOf(s.procs[i].call))
      && (s.procs[i].state == Killed ==> s.procs[i].wait == s.procs[i].pid)
  }

  /** No process sleeps in wait(p) while a killed process with pid p is there to be reaped. */
  ghost predicate NoLostWakeup(s: Kernel)
    requires Slots(s)
  {
    forall i, k ::
      0 < i < NUM_PROC && 0 < k < NUM_PROC &&
      s.procs[i].state == Sleep && s.procs[i].call.InWait? && s.procs[k].state == Killed ==>
        s.procs[k].pid != s.procs[i].call.pid
  }

  /** A process inside sys_sleep started it in the past; while it sleeps its time is not up. */
  ghost predicate Sleepers(s: Kernel)
    requires Slots(s)
  {
    forall i :: 0 < i < NUM_PROC && s.procs[i].call.InSleep? ==>
      && s.procs[i].call.since <= s.ticks
      && (s.procs[i].state == Sleep ==> s.ticks - s.procs[i].call.since < s.procs[i].call.ticks)
  }

  ghost predicate Core(s: Kernel) {
    Slots(s) && Located(s) && IdleOk(s) && Pids(s) && Waits(s) && NoLostWakeup(s)
  }

  ghost predicate OneRunning(s: Kernel)
    requires Slots(s)
  {
    forall i :: 0 <= i < NUM_PROC ==> (s.procs[i].state == Running <==> i == s.current)
  }

  ghost predicate NoneRunning(s: Kernel)
    requires Slots(s)
  {
    forall i :: 0 <= i < NUM_PROC ==> s.procs[i].state != Running
  }

  ghost predicate Inv(s: Kernel) { Core(s) && OneRunning(s) && Sleepers(s) }

  /** Lists and states decide where processes are; other fields do not matter. */
  lemma LocatedSame(s: Kernel, s': Kernel)
    requires Slots(s) && Slots(s') && Located(s)
    requires s'.ready == s.ready && s'.waiting == s.waiting && s'.killed == s.killed
    requires forall i :: 0 <= i < NUM_PROC ==> s'.procs[i].state == s.procs[i].state
    ensures Located(s')
  {
  }

  /** Pids and pages of the slots in use stay as they were. */
  lemma PidsSame(s: Kernel, s': Kernel)
    requires Slots(s) && Slots(s') && Pids(s) && s'.nextPid == s.nextPid
    requires forall i :: 0 <= i < NUM_PROC ==> (s'.procs[i].state == Unused <==> s.procs[i].state == Unused)
    requires forall i :: 0 <= i < NUM_PROC && s.procs[i].state == Unused ==> s'.procs[i] == s.procs[i]
    requires forall i :: 0 <= i < NUM_PROC ==>
        s'.procs[i].pid == s.procs[i].pid && s'.procs[i].pages == s.procs[i].pages
    ensures Pids(s')
  {
  }

  // wake_up

  lemma FilterNoDup(procs: seq<Proc>, list: seq<nat>, w: int)
    requires NoDup(list)
    ensures NoDup(Waiters(procs, list, w)) && NoDup(Others(procs, list, w))
  {
    if list != [] {
      FilterNoDup(procs, list[1..], w);
      WaitersMembers(procs, list[1..], w);
      assert list[0] !in list[1..];
    }
  }

  lemma ConcatNoDup(a: seq<nat>, b: seq<nat>)
    requires NoDup(a) && NoDup(b) && forall i :: i in a ==> i !in b
    ensures NoDup(a + b)
  {
    forall j, k | 0 <= j < k < |a + b| ensures (a + b)[j] != (a + b)[k] {
      if j < |a| <= k {
        assert a[j] in a && b[k - |a|] in b;
      }
    }
  }

  lemma WakeUpLocated(s: Kernel, w: int)
    requires Slots(s) && Located(s)
    ensures Slots(WakeUp(s, w)) && Located(WakeUp(s, w))
  {
    WakeUpSlots(s, w);
    WaitersMembers(s.procs, s.waiting, w);
    FilterNoDup(s.procs, s.waiting, w);
    var woken := Waiters(s.procs, s.waiting, w);
    assert forall i :: i in s.ready ==> i !in woken;
    ConcatNoDup(s.ready, woken);
  }

  /** wake_up changes states from Sleep to Ready and nothing else in the table. */
  lemma WakeUpSame(s: Kernel, w: int)
    requires Slots(s)
    ensures var s' := WakeUp(s, w);
            && Slots(s') && s'.current == s.current && s'.nextPid == s.nextPid && s'.ticks == s.ticks
            && s'.killed == s.killed && s'.free == s.free
            && forall i :: 0 <= i < NUM_PROC ==>
                 s'.procs[i] == if i in s.waiting && s.procs[i].wait == w then s.procs[i].(state := Ready)
                     else s.procs[i]
  {
    WakeUpSlots(s, w);
    WaitersMembers(s.procs, s.waiting, w);
  }

  lemma WakeUpCore(s: Kernel, w: int)
    requires Core(s)
    ensures Core(WakeUp(s, w))
  {
    hide WakeUp, NoDup;
    WakeUpLocated(s, w);
    WakeUpSame(s, w);
    hide Located;
  }

  lemma WakeUpInv(s: Kernel, w: int)
    requires Inv(s)
    ensures Inv(WakeUp(s, w))
  {
    hide WakeUp, NoDup, Pids, NoLostWakeup;
    WakeUpCore(s, w);
    WakeUpSame(s, w);
  }

  /** Waking the sleepers at a tick leaves none of them asleep. */
  lemma TickWakeCore(s: Kernel)
    requires Inv(s)
    ensures Core(TickWake(s)) && OneRunning(TickWake(s)) && Sleepers(TickWake(s)) && TickWake(s).current == s.current
    ensures forall i :: 0 < i < NUM_PROC ==>
        !(TickWake(s).procs[i].state == Sleep && TickWake(s).procs[i].call.InSleep?)
  {
    hide WakeUp, NoDup, Pids, NoLostWakeup;
    var s1 := s.(ticks := s.ticks + 1);
    LocatedSame(s, s1);
    TickCore(s);
    WakeUpCore(s1, WAIT_TICK);
    WakeUpSame(s1, WAIT_TICK);
  }

  lemma TickCore(s: Kernel)
    requires Core(s)
    ensures Core(s.(ticks := s.ticks + 1))
  {
    LocatedSame(s, s.(ticks := s.ticks + 1));
    hide Located;
  }

  // schedule, yield, sleep, exit

  lemma ScheduleLocated(s: Kernel)
    requires Core(s) && NoneRunning(s)
    ensures Slots(Schedule(s)) && Located(Schedule(s)) && (NextSlot(s) != 0 ==> s.procs[NextSlot(s)].state == Ready)
  {
    hide Pids, NoLostWakeup, Waits;
    if s.ready != [] {
      assert s.ready == [s.ready[0]] + s.ready[1..];
      assert s.ready[0] in s.ready;
      assert s.ready[0] !in s.ready[1..];
    }
  }

  lemma ScheduleInv(s: Kernel)
    requires Core(s) && NoneRunning(s) && Sleepers(s)
    ensures Inv(Schedule(s))
  {
    hide Located, Pids;
    ScheduleLocated(s);
    PidsSame(s, Schedule(s));
  }

  lemma YieldInv(s: Kernel)
    requires Core(s) && OneRunning(s) && Sleepers(s)
    ensures Inv(Yield(s))
  {
    hide Schedule, Core, OneRunning, Sleepers, NoneRunning;
    CoreSlots(s);
    if s.ready != [] {
      PutBackCore(s);
      ScheduleInv(PutBack(s));
    }
  }

  lemma CoreSlots(s: Kernel)
    requires Core(s)
    ensures Slots(s) && (Inv(s) <==> OneRunning(s) && Sleepers(s))
  {
  }

  lemma PutBackCore(s: Kernel)
    requires Core(s) && OneRunning(s) && Sleepers(s)
    ensures Core(PutBack(s)) && NoneRunning(PutBack(s)) && Sleepers(PutBack(s))
  {
    hide Located, Pids;
    PutBackLocated(s);
    PidsSame(s, PutBack(s));
  }

  /** yield() up to its call of schedule(): the current process joins the ready list unless it is the idle one. */
  ghost function PutBack(s: Kernel): Kernel
    requires Slots(s)
  {
    var s1 := Set(s, s.current, Current(s).(state := Ready));
    if Current(s).pid != 0 then s1.(ready := s.ready + [s.current]) else s1
  }

  lemma PutBackLocated(s: Kernel)
    requires Core(s) && OneRunning(s)
    ensures Slots(PutBack(s)) && Located(PutBack(s))
  {
    hide NoLostWakeup, Waits;
    assert s.current !in s.ready;
    ConcatNoDup(s.ready, [s.current]);
  }

  lemma SleepOnInv(s: Kernel, w: int, call: Call)
    requires Inv(s) && s.current != 0 && !call.User? && w == WaitKeyOf(call)
    requires call.InWait? ==> forall k :: 0 < k < NUM_PROC && s.procs[k].state == Killed ==> s.procs[k].pid != call.pid
    requires call.InSleep? ==> call.since <= s.ticks && s.ticks - call.since < call.ticks
    ensures Inv(SleepOn(s, w, call))
  {
    FallAsleepLocated(s, w, call);
    hide Located;
    ScheduleInv(FallAsleep(s, w, call));
  }

  ghost function FallAsleep(s: Kernel, w: int, call: Call): Kernel
    requires Slots(s)
  {
    Set(s, s.current, Current(s).(state := Sleep, wait := w, call := call)).(waiting := s.waiting + [s.current])
  }

  lemma FallAsleepLocated(s: Kernel, w: int, call: Call)
    requires Inv(s) && s.current != 0
    ensures Slots(FallAsleep(s, w, call)) && Located(FallAsleep(s, w, call))
  {
    hide NoLostWakeup, Waits, Pids;
    assert s.current !in s.waiting;
    ConcatNoDup(s.waiting, [s.current]);
  }

  ghost function Killing(s: Kernel): Kernel
    requires Slots(s)
  {
    Set(s, s.current, Current(s).(state := Killed, wait := Current(s).pid)).(killed := s.killed + [s.current])
  }

  lemma KillingLocated(s: Kernel)
    requires Inv(s) && s.current != 0
    ensures Slots(Killing(s)) && Located(Killing(s))
  {
    assert s.current !in s.killed;
    ConcatNoDup(s.killed, [s.current]);
  }

  /** exit() may make a process reapable that others sleep for; waking them all restores NoLostWakeup. */
  lemma DieCore(s: Kernel)
    requires Inv(s) && s.current != 0
    ensures Core(Die(s)) && NoneRunning(Die(s)) && Sleepers(Die(s))
  {
    hide Located, WakeUp, Pids, IdleOk, Waits, NoLostWakeup, Sleepers, NoneRunning;
    KillingLocated(s);
    WakeUpLocated(Killing(s), WAIT_CHILD);
    DiePids(s);
    DieRest(s);
  }

  lemma DiePids(s: Kernel)
    requires Inv(s) && s.current != 0 && Slots(Die(s))
    ensures Pids(Die(s)) && IdleOk(Die(s))
  {
    hide WakeUp, Waits, NoLostWakeup, Sleepers;
    KillingLocated(s);
    WakeUpSame(Killing(s), WAIT_CHILD);
    hide Located;
  }

  /** After exit() nobody sleeps in wait. */
  lemma DieWoken(s: Kernel)
    requires Inv(s) && s.current != 0 && Slots(Die(s))
    ensures forall i :: 0 < i < NUM_PROC ==> !(Die(s).procs[i].state == Sleep && Die(s).procs[i].call.InWait?)
  {
    hide WakeUp, Pids, NoDup, NoLostWakeup;
    KillingLocated(s);
    WakeUpSame(Killing(s), WAIT_CHILD);
  }

  lemma DieRest(s: Kernel)
    requires Inv(s) && s.current != 0 && Slots(Die(s))
    ensures Waits(Die(s)) && NoLostWakeup(Die(s)) && NoneRunning(Die(s)) && Sleepers(Die(s))
  {
    hide WakeUp, Pids, NoDup;
    KillingLocated(s);
    WakeUpSame(Killing(s), WAIT_CHILD);
    DieWoken(s);
    hide Located;
  }

  lemma ExitInv(s: Kernel)
    requires Inv(s) && s.current != 0
    ensures Inv(ExitProcess(s))
  {
    DieCore(s);
    ScheduleInv(Die(s));
  }

  // wait

  lemma ReapLocated(s: Kernel, k: nat)
    requires Inv(s) && k < |s.killed|
    ensures Slots(Reap(s, k)) && Located(Reap(s, k)) && s.procs[s.killed[k]].state == Killed && s.killed[k] != 0
  {
    hide NoLostWakeup, Waits, Pids;
    var i := s.killed[k];
    assert i in s.killed;
    var rest := RemoveAt(s.killed, k);
    forall j | 0 < j < NUM_PROC ensures j in rest <==> j in s.killed && j != i {
      if j in s.killed && j != i {
        var n :| 0 <= n < |s.killed| && s.killed[n] == j;
        assert rest[if n < k then n else n - 1] == j;
      }
    }
  }

  lemma ReapInv(s: Kernel, k: nat)
    requires Inv(s) && s.current != 0 && k < |s.killed|
    ensures Inv(Reap(s, k)) && Reap(s, k).current == s.current && s.killed[k] != s.current
  {
    ReapLocated(s, k);
    hide Located;
  }

  lemma ReturnInv(s: Kernel)
    requires Inv(s) && s.current != 0
    ensures Inv(Return(s))
  {
    LocatedSame(s, Return(s));
    hide Located;
  }

  lemma WaitRoundInv(s: Kernel, pid: int)
    requires Inv(s) && s.current != 0
    ensures Inv(WaitRound(s, pid))
  {
    var k := FirstWaiter(s.procs, s.killed, pid);
    if k < |s.killed| {
      ReapInv(s, k);
      ReturnInv(Reap(s, k));
    } else {
      forall j | 0 < j < NUM_PROC && s.procs[j].state == Killed ensures s.procs[j].pid != pid {
        assert j in s.killed;
      }
      SleepOnInv(s, WAIT_CHILD, InWait(pid));
    }
  }

  lemma SleepRoundInv(s: Kernel, since: nat, n: nat)
    requires Inv(s) && s.current != 0 && since <= s.ticks
    ensures Inv(SleepRound(s, since, n))
  {
    if s.ticks - since < n {
      SleepOnInv(s, WAIT_TICK, InSleep(since, n));
    } else {
      ReturnInv(s);
    }
  }

  // fork

  lemma ForkInv(s: Kernel, pages: Pages)
    requires Inv(s) && s.current != 0 && FindUnused(s.procs) < NUM_PROC && Distinct(pages)
    ensures Inv(ForkProcess(s, pages))
  {
    hide Located, Pids;
    ForkLocated(s, pages);
    ForkPids(s, pages);
    ForkIsFresh(s);
  }

  lemma ForkIsFresh(s: Kernel)
    requires Core(s) && FindUnused(s.procs) < NUM_PROC
    ensures var i := FindUnused(s.procs); i != 0 && s.procs[i] == NO_PROC
  {
  }

  /** The child's pid is new. */
  lemma ForkPids(s: Kernel, pages: Pages)
    requires Core(s) && FindUnused(s.procs) < NUM_PROC && Distinct(pages)
    ensures Slots(ForkProcess(s, pages)) ==> Pids(ForkProcess(s, pages))
  {
    hide Located, Waits, NoLostWakeup;
  }

  lemma ForkLocated(s: Kernel, pages: Pages)
    requires Inv(s) && s.current != 0 && FindUnused(s.procs) < NUM_PROC && Distinct(pages)
    ensures Slots(ForkProcess(s, pages)) && Located(ForkProcess(s, pages))
  {
    hide NoLostWakeup, Waits;
    var i := FindUnused(s.procs);
    assert i !in s.ready && i != 0;
    ConcatNoDup(s.ready, [i]);
  }

  /** Every event keeps the invariant. */
  lemma StepInv(s: Kernel, e: Event)
    requires Inv(s) && Enabled(s, e)
    ensures Inv(Step(s, e))
  {
    hide Yield, WakeUp, ForkProcess, ExitProcess, WaitRound, SleepRound, SleepOn, Return, TickWake, Located,
         NoLostWakeup, Waits, Pids;
    match e
    case Timer =>
      TickWakeCore(s);
      YieldInv(TickWake(s));
    case Key => WakeUpInv(s, WAIT_KEY);
    case Fork(pages) => ForkInv(s, pages);
    case Exit => ExitInv(s);
    case Wait(pid) => WaitRoundInv(s, pid);
    case SleepTicks(n) => SleepRoundInv(s, s.ticks, n);
    case ReadKey(empty) =>
      if empty {
        SleepOnInv(s, WAIT_KEY, InReadKey);
      }
    case Stay =>
    case Resume =>
      assert s.current != 0;
      match Current(s).call
      case InWait(pid) => WaitRoundInv(s, pid);
      case InSleep(since, n) => SleepRoundInv(s, since, n);
      case _ => ReturnInv(s);
  }
}
