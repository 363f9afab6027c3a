/**
 The kernel as a transition system. One event is one uninterrupted stretch of kernel code: an
 interrupt, a system call up to its return or its sleep, or the rest of a call whose process was
 switched back to. Processes are slots of the table; lists are sequences of slots.
 */
module Machine {
  const NUM_PROC: nat := 10
  const WAIT_TICK: int := -1
  const WAIT_KEY: int := -2
  const WAIT_CHILD: int := -3

  datatype PState = Unused | Running | Ready | Sleep | Killed

  /** Where a process is: in user code, or suspended inside one of the blocking calls. */
  datatype Call = User | InWait(pid: int) | InSleep(since: nat, ticks: nat) | InReadKey

  /** The five pages of a process: kernel stack, top table, user page and the two tables between. */
  datatype Pages = NoPages | Pages(stack: nat, pgd: nat, user: nat, pud: nat, pmd: nat)

  datatype Proc = Proc(pid: int, wait: int, state: PState, call: Call, pages: Pages)

  datatype Kernel = Kernel(procs: seq<Proc>, current: nat, ready: seq<nat>, waiting: seq<nat>, killed: seq<nat>,
                           nextPid: int, ticks: nat, free: set<nat>)

  /** Stay stands for user code and for the calls that move no process: exec, the file calls, getpid. */
  datatype Event =
    | Timer
    | Key
    | Fork(pages: Pages)
    | Exit
    | Wait(pid: int)
    | SleepTicks(n: nat)
    | ReadKey(empty: bool)
    | Stay
    | Resume

  const NO_PROC := Proc(0, 0, Unused, User, NoPages)

  function PageSet(g: Pages): set<nat> {
    if g.NoPages? then {} else {g.stack, g.pgd, g.user, g.pud, g.pmd}
  }

  predicate Distinct(g: Pages) {
    && g.Pages?
    && g.stack !in {g.pgd, g.user, g.pud, g.pmd} && g.pgd !in {g.user, g.pud, g.pmd}
    && g.user !in {g.pud, g.pmd} && g.pud != g.pmd
  }

  // The operations of process.c on kernel values

  /** The members of a list that wait for w, and those that do not, in list order. */
  function Waiters(procs: seq<Proc>, list: seq<nat>, w: int): seq<nat> {
    if list == [] then [] else
    (if list[0] < |procs| && procs[list[0]].wait == w then [list[0]] else []) + Waiters(procs, list[1..], w)
  }

  function Others(procs: seq<Proc>, list: seq<nat>, w: int): seq<nat> {
    if list == [] then [] else
    (if list[0] < |procs| && procs[list[0]].wait == w then [] else [list[0]]) + Others(procs, list[1..], w)
  }

  function MarkReady(procs: seq<Proc>, woken: seq<nat>): seq<Proc> {
    seq(|procs|, i requires 0 <= i < |procs| => if i in woken then procs[i].(state := Ready) else procs[i])
  }

  function WakeUp(s: Kernel, w: int): Kernel {
    var woken := Waiters(s.procs, s.waiting, w);
    s.(procs := MarkReady(s.procs, woken), ready := s.ready + woken, waiting := Others(s.procs, s.waiting, w))
  }

  function Set(s: Kernel, i: nat, p: Proc): Kernel
    requires i < |s.procs|
  {
    s.(procs := s.procs[i := p])
  }

  function Current(s: Kernel): Proc
    requires s.current < |s.procs|
  {
    s.procs[s.current]
  }

  /** The slot schedule() switches to: the head of the ready list, or the idle process. */
  function NextSlot(s: Kernel): nat { if s.ready == [] then 0 else s.ready[0] }

  function Schedule(s: Kernel): Kernel
    requires NextSlot(s) < |s.procs|
  {
    var n := NextSlot(s);
    Set(s, n, s.procs[n].(state := Running)).(current := n, ready := if s.ready == [] then [] else s.ready[1..])
  }

  predicate Slots(s: Kernel) {
    && |s.procs| == NUM_PROC && s.current < NUM_PROC
    && AllSlots(s.ready) && AllSlots(s.waiting) && AllSlots(s.killed)
  }

  predicate AllSlots(list: seq<nat>) {
    forall k :: 0 <= k < |list| ==> list[k] < NUM_PROC
  }

  function Yield(s: Kernel): Kernel
    requires Slots(s)
  {
    if s.ready == [] then s else
    var s1 := Set(s, s.current, Current(s).(state := Ready));
    Schedule(if Current(s).pid != 0 then s1.(ready := s.ready + [s.current]) else s1)
  }

  function SleepOn(s: Kernel, w: int, call: Call): Kernel
    requires Slots(s)
  {
    var sleeping := Set(s, s.current, Current(s).(state := Sleep, wait := w, call := call));
    Schedule(sleeping.(waiting := s.waiting + [s.current]))
  }

  /** exit() up to its call of schedule(). */
  function Die(s: Kernel): Kernel
    requires Slots(s)
  {
    var dying := Set(s, s.current, Current(s).(state := Killed, wait := Current(s).pid));
    WakeUp(dying.(killed := s.killed + [s.current]), WAIT_CHILD)
  }

  lemma DieSlots(s: Kernel)
    requires Slots(s)
    ensures Slots(Die(s))
  {
    var dying := Set(s, s.current, Current(s).(state := Killed, wait := Current(s).pid));
    WakeUpSlots(dying.(killed := s.killed + [s.current]), WAIT_CHILD);
  }

  function ExitProcess(s: Kernel): Kernel
    requires Slots(s)
  {
    DieSlots(s);
    Schedule(Die(s))
  }

  /** Back to user code. */
  function Return(s: Kernel): Kernel
    requires Slots(s)
  {
    Set(s, s.current, Current(s).(call := User))
  }

  function RemoveAt(list: seq<nat>, k: nat): seq<nat>
    requires k < |list|
  {
    list[..k] + list[k + 1..]
  }

  /** Position of the first member of the list that waits for w, or its length. */
  function FirstWaiter(procs: seq<Proc>, list: seq<nat>, w: int): (k: nat)
    ensures k <= |list|
    ensures k < |list| ==> list[k] < |procs| && procs[list[k]].wait == w
    ensures forall j :: 0 <= j < k && list[j] < |procs| ==> procs[list[j]].wait != w
  {
    if list == [] then 0
    else if list[0] < |procs| && procs[list[0]].wait == w then 0
    else 1 + FirstWaiter(procs, list[1..], w)
  }

  function Reap(s: Kernel, k: nat): Kernel
    requires Slots(s) && k < |s.killed|
  {
    var i := s.killed[k];
    Set(s, i, NO_PROC).(killed := RemoveAt(s.killed, k), free := s.free + PageSet(s.procs[i].pages))
  }

  /** One round of wait()'s loop. */
  function WaitRound(s: Kernel, pid: int): Kernel
    requires Slots(s)
  {
    var k := FirstWaiter(s.procs, s.killed, pid);
    if k < |s.killed| then Return(Reap(s, k)) else SleepOn(s, WAIT_CHILD, InWait(pid))
  }

  /** One round of sys_sleep()'s loop. */
  function SleepRound(s: Kernel, since: nat, n: nat): Kernel
    requires Slots(s)
  {
    if s.ticks - since < n then SleepOn(s, WAIT_TICK, InSleep(since, n)) else Return(s)
  }

  /** The first unused slot, or NUM_PROC. */
  function FindUnused(procs: seq<Proc>): (i: nat)
    ensures i <= |procs| && (i < |procs| ==> procs[i].state == Unused)
    ensures forall j :: 0 <= j < i ==> procs[j].state != Unused
  {
    if procs == [] then 0 else if procs[0].state == Unused then 0 else 1 + FindUnused(procs[1..])
  }

  function ForkProcess(s: Kernel, pages: Pages): Kernel
    requires Slots(s) && FindUnused(s.procs) < NUM_PROC
  {
    var i := FindUnused(s.procs);
    Set(s, i, Proc(s.nextPid, 0, Ready, User, pages)).(
      nextPid := s.nextPid + 1, ready := s.ready + [i], free := s.free - PageSet(pages))
  }

  // Events

  predicate Enabled(s: Kernel, e: Event) {
    && Slots(s)
    && match e {
         case Resume => !Current(s).call.User?
         case Timer => Current(s).call.User?
         case Key => Current(s).call.User?
         case Fork(pages) =>
           Current(s).call.User? && s.current != 0 && FindUnused(s.procs) < NUM_PROC && Distinct(pages)
               && PageSet(pages) <= s.free
         case _ => Current(s).call.User? && s.current != 0
       }
  }

  function Step(s: Kernel, e: Event): Kernel
    requires Enabled(s, e)
  {
    match e
    case Timer => Yield(TickWake(s))
    case Key => WakeUp(s, WAIT_KEY)
    case Fork(pages) => ForkProcess(s, pages)
    case Exit => ExitProcess(s)
    case Wait(pid) => WaitRound(s, pid)
    case SleepTicks(n) => SleepRound(s, s.ticks, n)
    case ReadKey(empty) => if empty then SleepOn(s, WAIT_KEY, InReadKey) else s
    case Stay => s
    case Resume =>
      match Current(s).call
      case InWait(pid) => WaitRound(s, pid)
      case InSleep(since, n) => SleepRound(s, since, n)
      case _ => Return(s)
  }

  function TickWake(s: Kernel): (s': Kernel)
    requires Slots(s)
    ensures Slots(s')
  {
    WakeUpSlots(s.(ticks := s.ticks + 1), WAIT_TICK);
    WakeUp(s.(ticks := s.ticks + 1), WAIT_TICK)
  }

  lemma WaitersMembers(procs: seq<Proc>, list: seq<nat>, w: int)
    ensures forall i :: i in Waiters(procs, list, w) <==> i in list && i < |procs| && procs[i].wait == w
    ensures forall i :: i in Others(procs, list, w) <==> i in list && !(i < |procs| && procs[i].wait == w)
  {
  }

  lemma WakeUpSlots(s: Kernel, w: int)
    requires Slots(s)
    ensures Slots(WakeUp(s, w))
  {
    WaitersMembers(s.procs, s.waiting, w);
    var woken, rest := Waiters(s.procs, s.waiting, w), Others(s.procs, s.waiting, w);
    forall k | 0 <= k < |woken| ensures woken[k] < NUM_PROC {
      assert woken[k] in woken;
    }
    forall k | 0 <= k < |rest| ensures rest[k] < NUM_PROC {
      assert rest[k] in rest;
    }
  }
}
