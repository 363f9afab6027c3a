/** What a whole run guarantees: who runs when, when blocked calls return, which pids exist. */
module MachineLaws {
  import opened Machine
  import opened MachineInv
  import opened MachineRuns

  lemma {:induction false} RunInv(s: Kernel, es: seq<Event>)
    requires Inv(s) && RunOk(s, es)
    ensures Inv(Run(s, es))
    decreases |es|
  {
    if es != [] {
      StepInv(s, es[0]);
      RunInv(Step(s, es[0]), es[1..]);
    }
  }

  // schedule() and the ready list

  /** Whether the event calls schedule(). */
  ghost predicate Schedules(s: Kernel, e: Event)
    requires Enabled(s, e)
  {
    match e
    case Timer => TickWake(s).ready != []
    case Exit => true
    case Wait(pid) => FirstWaiter(s.procs, s.killed, pid) == |s.killed|
    case SleepTicks(n) => n > 0
    case ReadKey(empty) => empty
    case Resume => (match Current(s).call
                    case InWait(pid) => FirstWaiter(s.procs, s.killed, pid) == |s.killed|
                    case InSleep(since, n) => s.ticks - since < n
                    case _ => false)
    case _ => false
  }

  /** The slots an event puts at the end of the ready list. */
  ghost function Joining(s: Kernel, e: Event): seq<nat>
    requires Enabled(s, e)
  {
    match e
    case Timer =>
      var woken := Waiters(s.procs, s.waiting, WAIT_TICK);
      woken + if s.ready + woken != [] && Current(s).pid != 0 then [s.current] else []
    case Key => Waiters(s.procs, s.waiting, WAIT_KEY)
    case Fork(_) => [FindUnused(s.procs)]
    case Exit => Waiters(Killing(s).procs, s.waiting, WAIT_CHILD)
    case _ => []
  }

  /** Every event only appends to the ready list, and takes its head exactly when it calls schedule(). */
  lemma StepReady(s: Kernel, e: Event)
    requires Inv(s) && Enabled(s, e)
    ensures var queue, s' := s.ready + Joining(s, e), Step(s, e);
            if !Schedules(s, e) then s'.ready == queue && s'.current == s.current
            else if queue == [] then s'.ready == [] && s'.current == 0
            else s'.ready == queue[1..] && s'.current == queue[0]
  {
    hide Core, OneRunning, Sleepers, Waiters, Others, MarkReady, Slots;
    match e
    case Timer => TimerReady(s);
    case Exit =>
    case _ =>
  }

  lemma TimerReady(s: Kernel)
    requires Inv(s) && Enabled(s, Timer)
    ensures var queue, s' := s.ready + Joining(s, Timer), Step(s, Timer);
            if !Schedules(s, Timer) then s'.ready == queue && s'.current == s.current
            else queue != [] && s'.ready == queue[1..] && s'.current == queue[0]
  {
    var s1 := TickWake(s);
    TickWakeCore(s);
    WakeUpSame(s.(ticks := s.ticks + 1), WAIT_TICK);
    hide Core, OneRunning, Sleepers, Waiters, Others, MarkReady, Slots;
    if s1.ready != [] {
      assert s.ready + Joining(s, Timer) == if Current(s).pid != 0 then s1.ready + [s.current] else s1.ready;
    }
  }

  /** schedule() never switches from a process to itself, which would resume a stale stack pointer. */
  lemma SwitchIsReal(s: Kernel, e: Event)
    requires Inv(s) && Enabled(s, e) && Schedules(s, e)
    ensures Step(s, e).current != s.current
  {
    hide Step, Schedule, NoLostWakeup, Pids, Sleepers;
    StepReady(s, e);
    WaitersMembers(s.procs, s.waiting, WAIT_TICK);
    WaitersMembers(Killing(s).procs, s.waiting, WAIT_CHILD);
    var woken := Joining(s, e);
    assert s.current !in s.ready && s.current !in s.waiting && s.current !in s.killed;
    assert s.ready != [] ==> s.ready[0] in s.ready;
    assert woken != [] ==> woken[0] in woken;
  }

  /** How often a run calls schedule(). */
  ghost function Calls(s: Kernel, es: seq<Event>): nat
    requires RunOk(s, es)
    decreases |es|
  {
    if es == [] then 0 else (if Schedules(s, es[0]) then 1 else 0) + Calls(Step(s, es[0]), es[1..])
  }

  ghost function Timers(es: seq<Event>): nat {
    if es == [] then 0 else (if es[0].Timer? then 1 else 0) + Timers(es[1..])
  }

  /** One event moves a queued process one place forward, or to the processor, exactly when it calls schedule(). */
  lemma QueueStep(s: Kernel, e: Event, k: nat)
    requires Inv(s) && Enabled(s, e) && k < |s.ready|
    ensures var s', p := Step(s, e), s.ready[k];
            if !Schedules(s, e) then k < |s'.ready| && s'.ready[k] == p
            else if k == 0 then s'.current == p
            else k - 1 < |s'.ready| && s'.ready[k - 1] == p
  {
    hide Core, OneRunning, Sleepers, Step, Schedules, Joining;
    StepReady(s, e);
  }

  /** Until its turn, a queued process is one place further for every call of schedule(). */
  lemma {:induction false} QueueAdvances(s: Kernel, es: seq<Event>, k: nat)
    requires Inv(s) && RunOk(s, es) && k < |s.ready| && Calls(s, es) <= k
    ensures var c, t := Calls(s, es), Run(s, es);
            Inv(t) && k - c < |t.ready| && t.ready[k - c] == s.ready[k] && t.current != s.ready[k]
    decreases |es|
  {
    hide Core, OneRunning, Sleepers, Step, Schedules;
    if es == [] {
      NotQueued(s, k);
    } else {
      StepInv(s, es[0]);
      QueueStep(s, es[0], k);
      QueueAdvances(Step(s, es[0]), es[1..], if Schedules(s, es[0]) then k - 1 else k);
    }
  }

  /**
   Round robin: a process at index k of the ready list is passed over by the next k calls of
   schedule(), whatever else happens, and becomes current at the call after those.
   */
  lemma RoundRobin(s: Kernel, es: seq<Event>, k: nat, e: Event)
    requires Inv(s) && RunOk(s, es) && k < |s.ready| && Calls(s, es) == k
    requires Enabled(Run(s, es), e) && Schedules(Run(s, es), e)
    ensures Run(s, es).current != s.ready[k] && Step(Run(s, es), e).current == s.ready[k]
  {
    hide Inv, Step, Schedules, Run, RunOk, Calls;
    QueueAdvances(s, es, k);
    QueueStep(Run(s, es), e, 0);
  }

  /** The current process is not on the ready list. */
  lemma NotQueued(s: Kernel, k: nat)
    requires Inv(s) && k < |s.ready|
    ensures s.ready[k] != s.current
  {
    assert s.ready[k] in s.ready;
  }

  lemma {:induction false} TakeOk(s: Kernel, es: seq<Event>, n: nat)
    requires RunOk(s, es) && n <= |es|
    ensures RunOk(s, es[..n])
    decreases n
  {
    if n > 0 {
      TakeOk(Step(s, es[0]), es[1..], n - 1);
      assert es[..n][1..] == es[1..][..n - 1];
    }
  }

  /** A ready process at index k has run by the time k + 1 timer interrupts have come. */
  lemma {:induction false} RunsWithinTimers(s: Kernel, es: seq<Event>, k: nat) returns (n: nat)
    requires Inv(s) && RunOk(s, es) && k < |s.ready| && Timers(es) >= k + 1
    ensures n <= |es| && RunOk(s, es[..n]) && Run(s, es[..n]).current == s.ready[k]
    decreases |es|
  {
    hide Core, OneRunning, Sleepers, Step, Schedules;
    StepInv(s, es[0]);
    QueueStep(s, es[0], k);
    TimerSchedules(s, es[0]);
    var s1, rest := Step(s, es[0]), es[1..];
    if Schedules(s, es[0]) && k == 0 {
      n := 1;
    } else {
      var m := RunsWithinTimers(s1, rest, if Schedules(s, es[0]) then k - 1 else k);
      n := m + 1;
    }
    TakeOk(s, es, n);
    assert es[..n][1..] == rest[..n - 1];
  }

  lemma TimerSchedules(s: Kernel, e: Event)
    requires Inv(s) && Enabled(s, e) && s.ready != []
    ensures e.Timer? ==> Schedules(s, e)
  {
  }

  // What one event can do to one slot

  /** Reaped, forked, or the same process with the same pages; a killed process does not change until it is reaped. */
  ghost predicate SlotChange(s: Kernel, s': Kernel, i: nat)
    requires Slots(s) && Slots(s') && i < NUM_PROC
  {
    var p, p' := s.procs[i], s'.procs[i];
    || (p.state == Killed && p' == NO_PROC)
    || (p == NO_PROC && p'.pid == s.nextPid < s'.nextPid && p'.state != Killed)
    || (p'.pid == p.pid && p'.pages == p.pages && (p.state in {Killed, Unused} ==> p' == p)
        && (p.state !in {Killed, Unused} ==> p'.state != Unused && (p'.call == p.call || i == s.current)))
  }

  ghost predicate SlotChanges(s: Kernel, s': Kernel) {
    && Slots(s) && Slots(s') && s.nextPid <= s'.nextPid && s.ticks <= s'.ticks
    && forall i :: 0 < i < NUM_PROC ==> SlotChange(s, s', i)
  }

  lemma WakeUpSlotsChange(s: Kernel, w: int)
    requires Inv(s)
    ensures SlotChanges(s, WakeUp(s, w))
  {
    WakeUpSame(s, w);
    hide WakeUp, NoDup;
  }

  lemma TimerSlots(s: Kernel)
    requires Inv(s) && Enabled(s, Timer)
    ensures SlotChanges(s, Step(s, Timer))
  {
    hide Pids, NoLostWakeup, Waits, MarkReady, Waiters, Others, WakeUp, NoDup;
    var s1 := s.(ticks := s.ticks + 1);
    WakeUpSame(s1, WAIT_TICK);
    TickWakeCore(s);
    ReadyHead(TickWake(s));
    StepInv(s, Timer);
  }

  lemma ReadyHead(s: Kernel)
    requires Core(s)
    ensures s.ready != [] ==> s.ready[0] != 0 && s.procs[s.ready[0]].state == Ready
  {
    assert s.ready != [] ==> s.ready[0] in s.ready;
  }

  lemma ExitSlots(s: Kernel)
    requires Inv(s) && s.current != 0
    ensures SlotChanges(s, ExitProcess(s)) && ExitProcess(s).procs[s.current].state == Killed
  {
    hide NoLostWakeup, Waits, Pids, MarkReady, Waiters, Others, WakeUp;
    KillingLocated(s);
    WakeUpSame(Killing(s), WAIT_CHILD);
    DieCore(s);
    ReadyHead(Die(s));
    ExitInv(s);
    hide Located;
  }

  lemma WaitRoundSlots(s: Kernel, pid: int)
    requires Inv(s) && s.current != 0
    ensures SlotChanges(s, WaitRound(s, pid))
  {
    hide NoLostWakeup, Waits, Pids, Located, SleepOn, SlotChanges, OneRunning, Sleepers, IdleOk;
    WaitRoundInv(s, pid);
    SlotsOf(WaitRound(s, pid));
    var k := FirstWaiter(s.procs, s.killed, pid);
    if k < |s.killed| {
      ReapSlots(s, k);
    } else {
      SleepSlots(s, WAIT_CHILD, InWait(pid));
    }
  }

  lemma ReapSlots(s: Kernel, k: nat)
    requires Inv(s) && s.current != 0 && k < |s.killed| && Slots(Return(Reap(s, k)))
    ensures SlotChanges(s, Return(Reap(s, k)))
  {
    hide NoLostWakeup, Waits, Pids;
    ReapLocated(s, k);
    hide Located;
  }

  lemma SleepSlots(s: Kernel, w: int, call: Call)
    requires Inv(s) && s.current != 0 && Slots(SleepOn(s, w, call))
    ensures SlotChanges(s, SleepOn(s, w, call))
  {
    hide NoLostWakeup, Waits, Pids;
    ReadyHead(s);
    hide Located;
  }

  lemma ForkSlots(s: Kernel, pages: Pages)
    requires Inv(s) && FindUnused(s.procs) < NUM_PROC && Slots(ForkProcess(s, pages))
    ensures SlotChanges(s, ForkProcess(s, pages))
  {
    ForkIsFresh(s);
    hide Located, NoLostWakeup, Waits, Pids;
  }

  lemma StepSlots(s: Kernel, e: Event)
    requires Inv(s) && Enabled(s, e)
    ensures SlotChanges(s, Step(s, e))
  {
    StepInv(s, e);
    hide Core, OneRunning, Sleepers, WakeUp, SleepOn, WaitRound, ExitProcess, Yield, TickWake, ForkProcess;
    match e
    case Timer => TimerSlots(s);
    case Key => WakeUpSlotsChange(s, WAIT_KEY);
    case Exit => ExitSlots(s);
    case Wait(pid) => WaitRoundSlots(s, pid);
    case Fork(pages) => ForkSlots(s, pages);
    case SleepTicks(n) => SleepRoundSlots(s, s.ticks, n);
    case ReadKey(empty) =>
      if empty {
        SleepSlots(s, WAIT_KEY, InReadKey);
      }
    case Stay =>
    case Resume =>
      NotIdle(s);
      match Current(s).call
      case InWait(pid) => WaitRoundSlots(s, pid);
      case InSleep(since, n) => SleepRoundSlots(s, since, n);
      case _ => ReturnSlots(s);
  }

  lemma NotIdle(s: Kernel)
    requires Inv(s) && !Current(s).call.User?
    ensures s.current != 0
  {
  }

  lemma ReturnSlots(s: Kernel)
    requires Inv(s) && s.current != 0
    ensures SlotChanges(s, Return(s))
  {
  }

  lemma SleepRoundSlots(s: Kernel, since: nat, n: nat)
    requires Inv(s) && s.current != 0 && Slots(SleepRound(s, since, n))
    ensures SlotChanges(s, SleepRound(s, since, n))
  {
    hide Core, SleepOn, Sleepers;
    if s.ticks - since < n {
      SleepSlots(s, WAIT_TICK, InSleep(since, n));
    } else {
      ReturnSlots(s);
    }
  }

  // Pids

  /** The pid was handed out, and only a killed process may still carry it. */
  ghost predicate Dead(s: Kernel, pid: int)
    requires Slots(s)
  {
    1 <= pid < s.nextPid && forall i :: 0 < i < NUM_PROC && s.procs[i].pid == pid ==> s.procs[i].state == Killed
  }

  /** The pid was handed out and no slot carries it. */
  ghost predicate Gone(s: Kernel, pid: int)
    requires Slots(s)
  {
    1 <= pid < s.nextPid && forall i :: 0 < i < NUM_PROC ==> s.procs[i].pid != pid
  }

  lemma DeadStep(s: Kernel, e: Event, pid: int)
    requires Inv(s) && Enabled(s, e) && Dead(s, pid)
    ensures Inv(Step(s, e)) && Dead(Step(s, e), pid) && (Gone(s, pid) ==> Gone(Step(s, e), pid))
  {
    hide Core, OneRunning, Sleepers, Step;
    StepInv(s, e);
    StepSlots(s, e);
    var s' := Step(s, e);
    forall i | 0 < i < NUM_PROC && s'.procs[i].pid == pid ensures s'.procs[i].state == Killed && s.procs[i].pid == pid {
      assert SlotChange(s, s', i);
    }
  }

  /** exit() makes the process unrunnable for ever: no state of any later run has it on the processor. */
  lemma {:induction false} DeadNeverRuns(s: Kernel, es: seq<Event>, pid: int)
    requires Inv(s) && RunOk(s, es) && Dead(s, pid)
    ensures Inv(Run(s, es)) && Dead(Run(s, es), pid) && Current(Run(s, es)).pid != pid
    ensures Gone(s, pid) ==> Gone(Run(s, es), pid)
    decreases |es|
  {
    if es != [] {
      hide Inv, Step, Dead, Gone;
      DeadStep(s, es[0], pid);
      DeadNeverRuns(Step(s, es[0]), es[1..], pid);
    }
  }

  lemma ExitKills(s: Kernel, es: seq<Event>)
    requires Inv(s) && Enabled(s, Exit) && RunOk(Step(s, Exit), es)
    ensures var t := Run(Step(s, Exit), es); Slots(t) && Current(t).pid != Current(s).pid
  {
    hide Step, RunOk, Run;
    StepInv(s, Exit);
    ExitIsDead(s);
    DeadNeverRuns(Step(s, Exit), es, Current(s).pid);
  }

  lemma ExitIsDead(s: Kernel)
    requires Inv(s) && Enabled(s, Exit)
    ensures Slots(Step(s, Exit)) && Dead(Step(s, Exit), Current(s).pid)
  {
    ExitSlots(s);
    hide Located, Waits, NoLostWakeup, ExitProcess;
    var s' := ExitProcess(s);
    forall i | 0 < i < NUM_PROC && s'.procs[i].pid == Current(s).pid ensures s'.procs[i].state == Killed {
      assert SlotChange(s, s', i);
    }
  }

  /** Pids are never handed out twice: in any later state an old pid means the same process with the same pages. */
  lemma {:induction false} PidsNeverReused(s: Kernel, es: seq<Event>, i: nat)
    requires Inv(s) && RunOk(s, es) && 0 < i < NUM_PROC
    ensures var t := Run(s, es);
            && Slots(t) && s.nextPid <= t.nextPid
            && (0 < t.procs[i].pid < s.nextPid ==>
                t.procs[i].pid == s.procs[i].pid && t.procs[i].pages == s.procs[i].pages)
    decreases |es|
  {
    if es != [] {
      hide Core, OneRunning, Sleepers, Step;
      StepInv(s, es[0]);
      StepSlots(s, es[0]);
      assert SlotChange(s, Step(s, es[0]), i);
      PidsNeverReused(Step(s, es[0]), es[1..], i);
    }
  }

  /** The child of fork gets a pid no process has or had, and the pages it was given. */
  lemma ForkGivesFreshPid(s: Kernel, pages: Pages)
    requires Inv(s) && Enabled(s, Fork(pages))
    ensures var i, s' := FindUnused(s.procs), Step(s, Fork(pages));
            && s.procs[i] == NO_PROC && s'.procs[i] == Proc(s.nextPid, 0, Ready, User, pages)
            && (forall j :: 0 <= j < NUM_PROC ==> s.procs[j].pid < s.nextPid)
            && s'.nextPid == s.nextPid + 1
            && (forall j :: 0 <= j < NUM_PROC && j != i ==> s'.procs[j] == s.procs[j])
            && s'.current == s.current && s'.waiting == s.waiting && s'.killed == s.killed && s'.ticks == s.ticks
  {
    ForkIsFresh(s);
  }

  // Blocking calls

  /** The process of slot i is inside a blocking call. */
  ghost predicate Blocked(s: Kernel, i: nat)
    requires Slots(s) && i < NUM_PROC
  {
    i != 0 && s.procs[i].state !in {Killed, Unused} && !s.procs[i].call.User?
  }

  /** Only its own next round takes a process out of a blocking call. */
  lemma BlockedStep(s: Kernel, e: Event, i: nat)
    requires Inv(s) && Enabled(s, e) && i < NUM_PROC && Blocked(s, i)
    ensures var s' := Step(s, e);
            Inv(s') && s'.ticks >= s.ticks
            && (!(e.Resume? && i == s.current) ==> Blocked(s', i) && s'.procs[i].call == s.procs[i].call)
  {
    StepInv(s, e);
    StepSlots(s, e);
    hide Step, Located, IdleOk, Pids, Waits, NoLostWakeup, OneRunning, Sleepers;
    var s' := Step(s, e);
    assert SlotChange(s, s', i);
    if !(e.Resume? && i == s.current) {
      assert i != s.current;
    }
  }

  lemma SleeperRound(s: Kernel)
    requires Inv(s) && s.current != 0 && Current(s).call.InSleep?
    ensures var s', i := Step(s, Resume), s.current; var c := s.procs[i].call;
            s.ticks - c.since < c.ticks ==> Slots(s') && Blocked(s', i) && s'.procs[i].call == c
  {
    StepInv(s, Resume);
  }

  /** A process stays inside sys_sleep until the ticks it asked for have elapsed. */
  lemma {:induction false} SleeperStays(s: Kernel, es: seq<Event>, i: nat)
    requires Inv(s) && RunOk(s, es) && i < NUM_PROC && Blocked(s, i) && s.procs[i].call.InSleep?
    ensures var t, c := Run(s, es), s.procs[i].call;
            Inv(t) && t.ticks >= s.ticks && (t.ticks - c.since < c.ticks ==> Blocked(t, i) && t.procs[i].call == c)
    decreases |es|
  {
    if es != [] {
      hide Core, OneRunning, Sleepers, Step;
      var s1 := Step(s, es[0]);
      BlockedStep(s, es[0], i);
      if es[0].Resume? && i == s.current {
        SleeperRound(s);
      }
      if Blocked(s1, i) && s1.procs[i].call == s.procs[i].call {
        SleeperStays(s1, es[1..], i);
      } else {
        RunInv(s1, es[1..]);
        TicksCountTimers(s1, es[1..]);
      }
    }
  }

  /** The tick counter counts the timer interrupts, and nothing else changes it. */
  lemma {:induction false} TicksCountTimers(s: Kernel, es: seq<Event>)
    requires Inv(s) && RunOk(s, es)
    ensures Run(s, es).ticks == s.ticks + Timers(es)
    decreases |es|
  {
    if es != [] {
      hide Core, OneRunning, Sleepers, Step;
      StepInv(s, es[0]);
      TickStep(s, es[0]);
      TicksCountTimers(Step(s, es[0]), es[1..]);
    }
  }

  lemma TickStep(s: Kernel, e: Event)
    requires Inv(s) && Enabled(s, e)
    ensures Step(s, e).ticks == s.ticks + if e.Timer? then 1 else 0
  {
    hide Core, OneRunning, Sleepers, Waiters, Others, MarkReady;
  }

  /** sys_sleep(n) has not returned in any state before n timer interrupts came. */
  lemma SleepLowerBound(s: Kernel, n: nat, es: seq<Event>)
    requires Inv(s) && Enabled(s, SleepTicks(n)) && RunOk(Step(s, SleepTicks(n)), es)
    ensures var t, i := Run(Step(s, SleepTicks(n)), es), s.current;
            Slots(t) && (Timers(es) < n ==> Blocked(t, i) && t.procs[i].call == InSleep(s.ticks, n))
  {
    hide Core, OneRunning, Sleepers, Step, RunOk, Run;
    StepInv(s, SleepTicks(n));
    TickStep(s, SleepTicks(n));
    TicksCountTimers(Step(s, SleepTicks(n)), es);
    RunInv(Step(s, SleepTicks(n)), es);
    SlotsOf(Run(Step(s, SleepTicks(n)), es));
    if n > 0 {
      SleepStarts(s, n);
      SleeperStays(Step(s, SleepTicks(n)), es, s.current);
    }
  }

  lemma SlotsOf(s: Kernel)
    requires Inv(s)
    ensures Slots(s)
  {
  }

  lemma SleepStarts(s: Kernel, n: nat)
    requires Inv(s) && Enabled(s, SleepTicks(n)) && n > 0
    ensures var s', i := Step(s, SleepTicks(n)), s.current;
            Slots(s') && i < NUM_PROC && Blocked(s', i) && s'.procs[i].call == InSleep(s.ticks, n)
  {
    StepInv(s, SleepTicks(n));
    NotQueuedAny(s);
    hide Located, Pids, NoLostWakeup, Waits;
  }

  /** When a sleeper runs again it leaves the call if its ticks have elapsed, and otherwise sleeps on. */
  lemma SleeperLeaves(s: Kernel)
    requires Inv(s) && s.current != 0 && Current(s).call.InSleep?
    ensures var s', i := Step(s, Resume), s.current; var c := s.procs[i].call;
            && Slots(s')
            && (s.ticks - c.since >= c.ticks <==>
                s'.current == i && s'.procs[i].call.User? && s'.procs[i].state == Running)
  {
    StepInv(s, Resume);
    NotQueuedAny(s);
    hide Located, Pids, NoLostWakeup, Waits;
  }

  /** After a timer interrupt no process is left asleep in sys_sleep. */
  lemma TickWakesAll(s: Kernel, i: nat)
    requires Inv(s) && Enabled(s, Timer) && 0 < i < NUM_PROC
    ensures var p := Step(s, Timer).procs[i]; !(p.state == Sleep && p.call.InSleep?)
  {
    TickWakeCore(s);
    hide Located, Pids, NoLostWakeup, Waits;
  }

  /** After a key press no process is left asleep in the keyboard read. */
  lemma KeyWakesAll(s: Kernel, i: nat)
    requires Inv(s) && Enabled(s, Key) && 0 < i < NUM_PROC
    ensures var p := Step(s, Key).procs[i]; !(p.state == Sleep && p.call.InReadKey?)
  {
    WakeUpSame(s, WAIT_KEY);
    hide WakeUp, NoDup, Pids, NoLostWakeup;
  }

  // Who is woken

  /** The event a blocked call sleeps for. */
  ghost predicate Wakes(e: Event, call: Call) {
    (e.Timer? && call.InSleep?) || (e.Key? && call.InReadKey?) || (e.Exit? && call.InWait?)
  }

  ghost predicate WokenBy(s: Kernel, s': Kernel, e: Event) {
    && Slots(s) && Slots(s')
    && forall i :: 0 < i < NUM_PROC && s.procs[i].state == Sleep ==>
         if Wakes(e, s.procs[i].call) then s'.procs[i].state != Sleep else s'.procs[i] == s.procs[i]
  }

  /** A sleeping process wakes up exactly when the event it sleeps for happens; otherwise nothing of it changes. */
  lemma WokenExactly(s: Kernel, e: Event)
    requires Inv(s) && Enabled(s, e)
    ensures WokenBy(s, Step(s, e), e)
  {
    hide Core, OneRunning, Sleepers, WakeUp, SleepOn, WaitRound, ExitProcess, Yield, TickWake, ForkProcess, WokenBy,
         SleepRound;
    match e
    case Timer => TimerWakes(s);
    case Key => KeyWakes(s);
    case Exit => ExitWakes(s);
    case Wait(pid) => WaitWakesNone(s, pid, e);
    case Fork(pages) => ForkWakesNone(s, pages);
    case SleepTicks(n) => SleepRoundWakesNone(s, s.ticks, n, e);
    case ReadKey(empty) =>
      ReturnWakesNone(s, e);
      if empty {
        SleepWakesNone(s, WAIT_KEY, InReadKey, e);
      }
    case Stay => ReturnWakesNone(s, e);
    case Resume =>
      NotIdle(s);
      ReturnWakesNone(s, e);
      match Current(s).call
      case InWait(pid) => WaitWakesNone(s, pid, e);
      case InSleep(since, n) => SleepRoundWakesNone(s, since, n, e);
      case _ =>
  }

  lemma TimerWakes(s: Kernel)
    requires Inv(s) && Enabled(s, Timer)
    ensures WokenBy(s, Step(s, Timer), Timer)
  {
    hide Pids, NoLostWakeup, MarkReady, Waiters, Others, WakeUp, NoDup;
    WakeUpSame(s.(ticks := s.ticks + 1), WAIT_TICK);
    TickWakeCore(s);
    ReadyHead(TickWake(s));
    StepInv(s, Timer);
  }

  lemma KeyWakes(s: Kernel)
    requires Inv(s)
    ensures WokenBy(s, WakeUp(s, WAIT_KEY), Key)
  {
    WakeUpSame(s, WAIT_KEY);
    hide WakeUp, NoDup;
  }

  lemma ExitWakes(s: Kernel)
    requires Inv(s) && s.current != 0
    ensures WokenBy(s, ExitProcess(s), Exit)
  {
    hide NoLostWakeup, Pids, MarkReady, Waiters, Others, WakeUp, NoDup;
    KillingLocated(s);
    WakeUpSame(Killing(s), WAIT_CHILD);
    DieCore(s);
    ReadyHead(Die(s));
    ExitInv(s);
  }

  lemma WaitWakesNone(s: Kernel, pid: int, e: Event)
    requires Inv(s) && s.current != 0 && (e.Wait? || e.Resume?)
    ensures WokenBy(s, WaitRound(s, pid), e)
  {
    hide NoLostWakeup, Waits, Pids, Located, SleepOn, WokenBy, OneRunning, Sleepers, IdleOk;
    var k := FirstWaiter(s.procs, s.killed, pid);
    if k < |s.killed| {
      ReapWakesNone(s, k, e);
    } else {
      SleepWakesNone(s, WAIT_CHILD, InWait(pid), e);
    }
  }

  lemma ReapWakesNone(s: Kernel, k: nat, e: Event)
    requires Inv(s) && s.current != 0 && k < |s.killed| && (e.Wait? || e.Resume?)
    ensures WokenBy(s, Return(Reap(s, k)), e)
  {
    hide NoLostWakeup, Waits, Pids;
    ReapLocated(s, k);
    assert s.procs[s.killed[k]].state == Killed by { assert s.killed[k] in s.killed; }
    hide Located;
  }

  lemma SleepWakesNone(s: Kernel, w: int, call: Call, e: Event)
    requires Inv(s) && s.current != 0 && !e.Timer? && !e.Key? && !e.Exit?
    ensures WokenBy(s, SleepOn(s, w, call), e)
  {
    hide NoLostWakeup, Waits, Pids;
    ReadyHead(s);
  }

  lemma SleepRoundWakesNone(s: Kernel, since: nat, n: nat, e: Event)
    requires Inv(s) && s.current != 0 && !e.Timer? && !e.Key? && !e.Exit?
    ensures WokenBy(s, SleepRound(s, since, n), e)
  {
    hide WokenBy, SleepOn;
    SleepWakesNone(s, WAIT_TICK, InSleep(since, n), e);
    ReturnWakesNone(s, e);
  }

  lemma ReturnWakesNone(s: Kernel, e: Event)
    requires Inv(s) && !e.Timer? && !e.Key? && !e.Exit?
    ensures WokenBy(s, Return(s), e) && WokenBy(s, s, e)
  {
    hide NoLostWakeup, Waits, Pids, Located;
  }

  lemma ForkWakesNone(s: Kernel, pages: Pages)
    requires Inv(s) && Enabled(s, Fork(pages))
    ensures WokenBy(s, ForkProcess(s, pages), Fork(pages))
  {
    hide NoLostWakeup, Waits, Pids, Located;
  }

  /** Who waits for w on the list stands among the woken after all who waited before it. */
  lemma {:induction false} WaiterAt(procs: seq<Proc>, list: seq<nat>, w: int, k: nat)
    requires k < |list| && list[k] < |procs| && procs[list[k]].wait == w
    ensures var x := |Waiters(procs, list[..k], w)|;
            x < |Waiters(procs, list, w)| && Waiters(procs, list, w)[x] == list[k]
  {
    if k > 0 {
      WaiterAt(procs, list[1..], w, k - 1);
      assert list[..k][1..] == list[1..][..k - 1];
    }
  }

  lemma {:induction false} MoreWaiters(procs: seq<Proc>, list: seq<nat>, w: int, j: nat, k: nat)
    requires j < k < |list| && list[j] < |procs| && procs[list[j]].wait == w
    ensures |Waiters(procs, list[..j], w)| < |Waiters(procs, list[..k], w)|
  {
    WaiterAt(procs, list[..k], w, j);
    assert list[..k][..j] == list[..j];
  }

  /** Two processes woken by one event queue up, and so run, in the order in which they fell asleep. */
  lemma WokenInOrder(s: Kernel, e: Event, j: nat, k: nat)
    requires Inv(s) && Enabled(s, e) && j < k < |s.waiting|
    requires Wakes(e, s.procs[s.waiting[j]].call) && Wakes(e, s.procs[s.waiting[k]].call)
    ensures exists x, y :: Queued(s, e, x, s.waiting[j]) && Queued(s, e, y, s.waiting[k]) && |s.ready| <= x < y
  {
    hide OneRunning, Sleepers, NoLostWakeup, Pids, Waiters, Step;
    var w := if e.Timer? then WAIT_TICK else if e.Key? then WAIT_KEY else WAIT_CHILD;
    var procs := if e.Exit? then Killing(s).procs else s.procs;
    assert s.waiting[j] in s.waiting && s.waiting[k] in s.waiting;
    assert s.waiting[j] != s.current && s.waiting[k] != s.current by { NotWaiting(s); }
    WaiterAt(procs, s.waiting, w, j);
    WaiterAt(procs, s.waiting, w, k);
    MoreWaiters(procs, s.waiting, w, j, k);
    var x, y := |s.ready| + |Waiters(procs, s.waiting[..j], w)|, |s.ready| + |Waiters(procs, s.waiting[..k], w)|;
    assert Queued(s, e, x, s.waiting[j]) && Queued(s, e, y, s.waiting[k]);
  }

  /** Slot i is at place x of the ready list once the event has put processes on it. */
  ghost predicate Queued(s: Kernel, e: Event, x: nat, i: nat)
    requires Enabled(s, e)
  {
    var queue := s.ready + Joining(s, e);
    x < |queue| && queue[x] == i
  }

  lemma NotWaiting(s: Kernel)
    requires Inv(s)
    ensures s.current !in s.waiting
  {
  }

  // wait

  ghost predicate Reapable(s: Kernel, i: nat, pid: int)
    requires Slots(s)
  {
    0 < i < NUM_PROC && s.procs[i].state == Killed && s.procs[i].pid == pid
  }

  lemma RemovedMembers(list: seq<nat>, k: nat, j: nat)
    requires NoDup(list) && k < |list|
    ensures j in RemoveAt(list, k) <==> j in list && j != list[k]
  {
    var rest := RemoveAt(list, k);
    if j in list && j != list[k] {
      var n :| 0 <= n < |list| && list[n] == j;
      assert rest[if n < k then n else n - 1] == j;
    }
  }

  lemma ReapedIs(s: Kernel, k: nat, pid: int)
    requires Inv(s) && s.current != 0 && k < |s.killed| && k == FirstWaiter(s.procs, s.killed, pid)
    ensures var i, t := s.killed[k], WaitRound(s, pid);
            && Slots(t) && Reapable(s, i, pid) && Gone(t, pid) && t.current == s.current
            && t == Return(s).(procs := Return(s).procs[i := NO_PROC], killed := RemoveAt(s.killed, k),
                               free := s.free + PageSet(s.procs[i].pages))
  {
    ReapLocated(s, k);
    WaitRoundInv(s, pid);
    hide NoDup, NoLostWakeup;
  }

  lemma OnlyOne(s: Kernel, i: nat, j: nat, pid: int)
    requires Inv(s) && Reapable(s, i, pid) && Reapable(s, j, pid)
    ensures i == j
  {
    hide Located, Waits, NoLostWakeup;
  }

  lemma SleepSwitches(s: Kernel, pid: int)
    requires Inv(s) && s.current != 0 && FirstWaiter(s.procs, s.killed, pid) == |s.killed|
    ensures var t := WaitRound(s, pid);
            && Slots(t) && t.current != s.current && t.free == s.free && t.procs[s.current].call == InWait(pid)
            && t.waiting == s.waiting + [s.current]
    ensures forall i: nat :: !Reapable(s, i, pid)
  {
    WaitRoundInv(s, pid);
    NotQueuedAny(s);
    hide NoLostWakeup, Pids, NoDup;
    forall i | 0 < i < NUM_PROC && s.procs[i].state == Killed ensures s.procs[i].pid != pid {
      assert i in s.killed;
    }
  }

  lemma NotQueuedAny(s: Kernel)
    requires Inv(s)
    ensures s.ready != [] ==> s.ready[0] != s.current
  {
    if s.ready != [] {
      NotQueued(s, 0);
    }
  }

  /**
   A round of wait(pid) returns exactly when a killed process with that pid exists. Then it is the
   only process with that pid, its slot becomes all zero, its five pages are free, and no other slot
   but the caller's call changes. Otherwise the caller is last on the wait list.
   */
  lemma WaitReaps(s: Kernel, pid: int)
    requires Inv(s) && s.current != 0
    ensures var t := WaitRound(s, pid);
            && Slots(t)
            && (t.current == s.current <==> exists i: nat :: Reapable(s, i, pid))
            && (t.current != s.current ==>
                s.waiting + [s.current] == t.waiting && t.procs[s.current].call == InWait(pid) && t.free == s.free)
            && forall i: nat :: Reapable(s, i, pid) ==>
                 && Gone(t, pid) && t == Return(s).(
                      procs := Return(s).procs[i := NO_PROC], killed := t.killed,
                          free := s.free + PageSet(s.procs[i].pages))
                 && i in s.killed && i !in t.killed
                 && (forall j :: j in t.killed <==> j in s.killed && j != i)
  {
    WaitRoundInv(s, pid);
    var k := FirstWaiter(s.procs, s.killed, pid);
    hide Core, OneRunning, Sleepers, WaitRound, Gone, RemoveAt;
    if k < |s.killed| {
      ReapedIs(s, k, pid);
      forall i: nat | Reapable(s, i, pid) ensures i == s.killed[k] {
        OnlyOne(s, i, s.killed[k], pid);
      }
      KilledNoDup(s);
      forall j ensures j in RemoveAt(s.killed, k) <==> j in s.killed && j != s.killed[k] {
        RemovedMembers(s.killed, k, j);
      }
    } else {
      SleepSwitches(s, pid);
    }
  }

  lemma KilledNoDup(s: Kernel)
    requires Inv(s)
    ensures NoDup(s.killed)
  {
  }

  /** Once a process inside wait(pid) is out of it, no process with that pid is left, nor will be. */
  lemma {:induction false} WaitEnds(s: Kernel, es: seq<Event>, i: nat)
    requires Inv(s) && RunOk(s, es) && i < NUM_PROC && Blocked(s, i) && s.procs[i].call.InWait?
    ensures var t, c := Run(s, es), s.procs[i].call;
            Inv(t) && ((Blocked(t, i) && t.procs[i].call == c) || Gone(t, c.pid))
    decreases |es|
  {
    if es != [] {
      hide Core, OneRunning, Sleepers, Step, Gone;
      var s1, pid := Step(s, es[0]), s.procs[i].call.pid;
      BlockedStep(s, es[0], i);
      if es[0].Resume? && i == s.current {
        WaiterRound(s);
      }
      if Blocked(s1, i) && s1.procs[i].call == s.procs[i].call {
        WaitEnds(s1, es[1..], i);
      } else {
        GoneIsDead(s1, pid);
        DeadNeverRuns(s1, es[1..], pid);
      }
    }
  }

  lemma GoneIsDead(s: Kernel, pid: int)
    requires Slots(s) && Gone(s, pid)
    ensures Dead(s, pid)
  {
  }

  lemma WaiterRound(s: Kernel)
    requires Inv(s) && s.current != 0 && Current(s).call.InWait?
    ensures var s', i := Step(s, Resume), s.current; var c := s.procs[i].call;
            Slots(s') && ((Blocked(s', i) && s'.procs[i].call == c) || Gone(s', c.pid))
  {
    StepInv(s, Resume);
    hide Located, IdleOk, NoLostWakeup, Waits, Pids, OneRunning, Sleepers;
    var pid := Current(s).call.pid;
    if FirstWaiter(s.procs, s.killed, pid) < |s.killed| {
      ReapedIs(s, FirstWaiter(s.procs, s.killed, pid), pid);
    } else {
      SleepSwitches(s, pid);
      StepSlots(s, Resume);
      assert SlotChange(s, Step(s, Resume), s.current);
    }
  }

  /** The slot a round of wait reaps, if the event is such a round. */
  ghost function Reaped(s: Kernel, e: Event): WhichSlot
    requires Slots(s)
  {
    if e.Wait? then ReapedBy(s, e.pid)
    else if e.Resume? && Current(s).call.InWait? then ReapedBy(s, Current(s).call.pid)
    else NoSlot
  }

  datatype WhichSlot = NoSlot | Slot(i: nat)

  ghost function ReapedBy(s: Kernel, pid: int): WhichSlot
    requires Slots(s)
  {
    var k := FirstWaiter(s.procs, s.killed, pid);
    if k < |s.killed| then Slot(s.killed[k]) else NoSlot
  }

  /** Between fork and reaping pages stay with their slots; reaping frees those of one slot. */
  ghost predicate PagesMove(s: Kernel, s': Kernel, r: WhichSlot)
    requires Slots(s) && Slots(s')
  {
    match r
    case NoSlot => SamePages(s, s')
    case Slot(i) =>
      && 0 < i < NUM_PROC && s.procs[i].pages.Pages? && s'.procs[i].pages.NoPages?
      && s'.free == s.free + PageSet(s.procs[i].pages)
      && forall j :: 0 <= j < NUM_PROC && j != i ==> s'.procs[j].pages == s.procs[j].pages
  }

  lemma WaitMovesPages(s: Kernel, pid: int)
    requires Inv(s) && s.current != 0
    ensures Slots(WaitRound(s, pid)) && PagesMove(s, WaitRound(s, pid), ReapedBy(s, pid))
  {
    WaitRoundInv(s, pid);
    hide Located, NoLostWakeup, Waits;
    var k := FirstWaiter(s.procs, s.killed, pid);
    if k < |s.killed| {
      ReapLocated(s, k);
    }
  }

  lemma StepMovesPages(s: Kernel, e: Event)
    requires Inv(s) && Enabled(s, e) && !e.Fork?
    ensures Slots(Step(s, e)) && PagesMove(s, Step(s, e), Reaped(s, e))
  {
    StepInv(s, e);
    hide Core, OneRunning, Sleepers, WaitRound, SamePages, ReapedBy, WakeUp, SleepOn;
    assert Slots(s) && Slots(Step(s, e)) by { SlotsKept(s, e); }
    if e.Wait? {
      WaitMovesPages(s, e.pid);
    } else if e.Resume? && Current(s).call.InWait? {
      NotIdle(s);
      WaitMovesPages(s, Current(s).call.pid);
    } else {
      OtherPages(s, e);
    }
  }

  lemma SlotsKept(s: Kernel, e: Event)
    requires Inv(s) && Enabled(s, e)
    ensures Slots(s) && Slots(Step(s, e))
  {
    StepInv(s, e);
  }
}
