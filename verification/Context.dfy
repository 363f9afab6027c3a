/**
 Saving and restoring a process: the trap frame of kernel_entry and trap_return, the callee-saved
 registers of swap, and what is left of them after other processes ran. Addresses count 8-byte words.
 */
module Context {
  import opened Words

  const FRAME_WORDS: nat := 36
  const CALLEE_SAVED: nat := 12
  const STACK_WORDS: nat := 0x40000

  type Regs = x: seq<Word> | |x| == 31 witness seq(31, _ => 0)

  datatype Cpu = Cpu(x: Regs, spEl0: Word, elr: Word, spsr: Word, sp: nat, mem: seq<Word>)

  function Put(mem: seq<Word>, a: nat, ws: seq<Word>): (r: seq<Word>)
    requires a + |ws| <= |mem|
    ensures |r| == |mem| && r[a..a + |ws|] == ws
    ensures forall i :: 0 <= i < |mem| && !(a <= i < a + |ws|) ==> r[i] == mem[i]
  {
    mem[..a] + ws + mem[a + |ws|..]
  }

  lemma PutMore(mem: seq<Word>, a: nat, ws: seq<Word>, u: Word, v: Word)
    requires a + |ws| + 2 <= |mem|
    ensures Put(mem, a, ws)[a + |ws| := u][a + |ws| + 1 := v] == Put(mem, a, ws + [u, v])
  {
    var n := |ws|;
    assert (ws + [u, v])[n] == u && (ws + [u, v])[n + 1] == v;
  }

  // Traps

  /** struct TrapFrame: x0 to x30, sp_el0, trap number, esr, elr, spsr. */
  function Frame(c: Cpu, trapno: Word, esr: Word): (f: seq<Word>)
    ensures |f| == FRAME_WORDS
  {
    c.x + [c.spEl0, trapno, esr, c.elr, c.spsr]
  }

  /** kernel_entry and handler_entry, up to the call of exception_handler; x0 and x1 are used on the way. */
  function Enter(c: Cpu, trapno: Word, esr: Word): Cpu
    requires FRAME_WORDS <= c.sp <= |c.mem|
  {
    var tf := c.sp - FRAME_WORDS;
    c.(x := c.x[0 := 8 * tf % WORD_LIMIT][1 := c.spsr], sp := tf, mem := Put(c.mem, tf, Frame(c, trapno, esr)))
  }

  /** trap_return and kernel_exit. */
  function TrapReturn(c: Cpu): Cpu
    requires c.sp + FRAME_WORDS <= |c.mem|
  {
    var f := c.mem[c.sp..c.sp + FRAME_WORDS];
    Cpu(f[..31], f[31], f[34], f[35], c.sp + FRAME_WORDS, c.mem)
  }

  /** The registers of user code. */
  ghost predicate SameUser(c: Cpu, d: Cpu) {
    c.x == d.x && c.spEl0 == d.spEl0 && c.elr == d.elr && c.spsr == d.spsr && c.sp == d.sp
  }

  /** Whatever the kernel does in between, returning through an unchanged frame restores all user registers. */
  lemma EntryThenReturn(c: Cpu, trapno: Word, esr: Word, d: Cpu)
    requires FRAME_WORDS <= c.sp <= |c.mem| && c.sp <= |d.mem| && d.sp == c.sp - FRAME_WORDS
    requires d.mem[d.sp..c.sp] == Enter(c, trapno, esr).mem[d.sp..c.sp]
    ensures SameUser(TrapReturn(d), c)
  {
    var f := Frame(c, trapno, esr);
    assert d.mem[d.sp..d.sp + FRAME_WORDS] == f;
    assert f[..31] == c.x;
  }

  // swap

  /** swap(&prev->context, next): the value stored in prev->context, and the processor after it. */
  function Swap(c: Cpu, next: nat): (nat, Cpu)
    requires CALLEE_SAVED <= c.sp <= |c.mem| && next + CALLEE_SAVED <= |c.mem|
  {
    var saved := c.sp - CALLEE_SAVED;
    var mem := Put(c.mem, saved, c.x[19..]);
    (saved, c.(x := c.x[..19][2 := 8 * saved % WORD_LIMIT] + mem[next..next + CALLEE_SAVED], sp := next + CALLEE_SAVED,
        mem := mem))
  }

  // Runs

  /** A slot of the process table: unused, or with a kernel stack from base up to top and a saved context. */
  datatype Slot = Unused | Used(base: nat, top: nat, context: nat)

  /**
   The processor, whether it runs user code, and the process it runs. Slot 0 is the idle process, which
   has no user code.
   */
  datatype Stacks = Stacks(cpu: Cpu, user: bool, current: nat, slots: seq<Slot>)

  /**
   Work: kernel code of the running process; it changes registers and its own stack. UserWork: user
   code up to its next exception. Elsewhere: any change of memory that is no kernel stack.
   */
  datatype Event =
    | Work(x: Regs, sp: nat, stack: seq<Word>)
    | UserWork(x: Regs, spEl0: Word, elr: Word, spsr: Word)
    | Trap(trapno: Word, esr: Word)
    | Return
    | Switch(next: nat)
    | Create(j: nat, base: nat)
    | Reap(j: nat)
    | Elsewhere(mem: seq<Word>)

  /** Where alloc_new_process puts the trap frame and, below it, the saved context. */
  const FRAME_AT: nat := STACK_WORDS - FRAME_WORDS
  const NEW_CONTEXT: nat := FRAME_AT - CALLEE_SAVED

  predicate IsUsed(s: Stacks, j: nat) { j < |s.slots| && s.slots[j].Used? }

  /** The highest stack pointer kernel code of a process has: its trap frame lies above. The idle process has none. */
  function Limit(s: Stacks, j: nat): int
    requires IsUsed(s, j)
  {
    if j == 0 then s.slots[j].top else s.slots[j].top - FRAME_WORDS
  }

  ghost predicate Apart(s: Stacks, i: nat, j: nat)
    requires IsUsed(s, i) && IsUsed(s, j)
  {
    s.slots[i].top <= s.slots[j].base || s.slots[j].top <= s.slots[i].base
  }

  ghost predicate Areas(s: Stacks) {
    && (forall j: nat :: IsUsed(s, j) && j != 0 ==> s.slots[j].top == s.slots[j].base + STACK_WORDS)
    && (forall j: nat :: IsUsed(s, j) ==> s.slots[j].base + CALLEE_SAVED <= s.slots[j].top <= |s.cpu.mem|)
    && (forall i: nat, j: nat :: IsUsed(s, i) && IsUsed(s, j) && i != j ==> Apart(s, i, j))
  }

  ghost predicate OnStack(s: Stacks, j: nat, sp: nat)
    requires IsUsed(s, j)
  {
    s.slots[j].base + CALLEE_SAVED <= sp <= Limit(s, j)
  }

  /**
   Kernel stacks do not overlap; saved contexts lie below the trap frames; user code runs with the
   kernel's stack pointer at the very top of the process's stack.
   */
  ghost predicate Inv(s: Stacks) {
    && IsUsed(s, 0) && IsUsed(s, s.current) && Areas(s)
    && (forall j: nat :: IsUsed(s, j) && j != s.current ==> OnStack(s, j, s.slots[j].context + CALLEE_SAVED))
    && if s.user then s.current != 0 && s.cpu.sp == s.slots[s.current].top else OnStack(s, s.current, s.cpu.sp)
  }

  function StackOf(s: Stacks, j: nat): seq<Word>
    requires IsUsed(s, j) && s.slots[j].base <= s.slots[j].top <= |s.cpu.mem|
  {
    s.cpu.mem[s.slots[j].base..s.slots[j].top]
  }

  /** Exceptions in kernel code are those of the idle process, which alone runs with interrupts on. */
  ghost predicate Enabled(s: Stacks, e: Event) {
    && Inv(s)
    && var slot := s.slots[s.current];
       match e
       case Work(_, sp, stack) => !s.user && |stack| == slot.top - slot.base && OnStack(s, s.current, sp)
       case UserWork(_, _, _, _) => s.user
       case Trap(_, _) => s.user || (s.current == 0 && slot.base + CALLEE_SAVED + FRAME_WORDS <= s.cpu.sp)
       case Return =>
         !s.user && if s.current == 0 then s.cpu.sp + FRAME_WORDS <= slot.top else s.cpu.sp == slot.top - FRAME_WORDS
       case Switch(next) => !s.user && IsUsed(s, next) && next != s.current
       case Create(j, base) =>
         !s.user && j < |s.slots| && s.slots[j].Unused? && base + STACK_WORDS <= |s.cpu.mem| && Free(s, base)
       case Reap(j) => !s.user && IsUsed(s, j) && j != s.current && j != 0
       case Elsewhere(mem) =>
         |mem| == |s.cpu.mem| &&
         forall j: nat :: IsUsed(s, j) ==> mem[s.slots[j].base..s.slots[j].top] == StackOf(s, j)
  }

  /** No stack overlaps the page. */
  ghost predicate Free(s: Stacks, base: nat) {
    forall j: nat :: IsUsed(s, j) ==> base + STACK_WORDS <= s.slots[j].base || s.slots[j].top <= base
  }

  ghost function Step(s: Stacks, e: Event): Stacks
    requires Enabled(s, e)
  {
    match e
    case Work(x, sp, stack) =>
      s.(cpu := s.cpu.(x := x, sp := sp, mem := Put(s.cpu.mem, s.slots[s.current].base, stack)))
    case UserWork(x, spEl0, elr, spsr) => s.(cpu := s.cpu.(x := x, spEl0 := spEl0, elr := elr, spsr := spsr))
    case Trap(trapno, esr) => s.(cpu := Enter(s.cpu, trapno, esr), user := false)
    case Return => s.(cpu := TrapReturn(s.cpu), user := s.current != 0)
    case Switch(next) =>
      var (saved, cpu) := Swap(s.cpu, s.slots[next].context);
      s.(cpu := cpu, current := next, slots := s.slots[s.current := s.slots[s.current].(context := saved)])
    case Create(j, base) => s.(slots := s.slots[j := Used(base, base + STACK_WORDS, base + NEW_CONTEXT)])
    case Reap(j) => s.(slots := s.slots[j := Unused])
    case Elsewhere(mem) => s.(cpu := s.cpu.(mem := mem))
  }

  /** The kernel before its first process: idle, on the boot stack. */
  lemma StartInv(cpu: Cpu, base: nat, top: nat, n: nat)
    requires n > 0 && base + CALLEE_SAVED <= cpu.sp <= top <= |cpu.mem|
    ensures Inv(Stacks(cpu, false, 0, seq(n, j => if j == 0 then Used(base, top, base) else Unused)))
  {
  }

  lemma StepInv(s: Stacks, e: Event)
    requires Enabled(s, e)
    ensures Inv(Step(s, e))
  {
    match e
    case Switch(next) => SwitchInv(s, next);
    case Create(j, base) => CreateInv(s, j, base);
    case Reap(j) => ReapInv(s, j);
    case _ =>
      hide Put;
      assert Step(s, e).slots == s.slots && |Step(s, e).cpu.mem| == |s.cpu.mem|;
      SameSlots(s, Step(s, e));
  }

  /** Stacks and contexts stay as they are; the running process's stack pointer may move. */
  lemma SameSlots(s: Stacks, s': Stacks)
    requires Inv(s) && s'.slots == s.slots && s'.current == s.current && |s'.cpu.mem| == |s.cpu.mem|
    requires if s'.user then s'.current != 0 && s'.cpu.sp == s.slots[s.current].top
        else OnStack(s, s.current, s'.cpu.sp)
    ensures Inv(s')
  {
    assert forall j: nat :: IsUsed(s', j) <==> IsUsed(s, j);
    forall i: nat, j: nat | IsUsed(s', i) && IsUsed(s', j) && i != j ensures Apart(s', i, j) {
      assert Apart(s, i, j);
    }
  }

  lemma SwitchInv(s: Stacks, next: nat)
    requires Enabled(s, Switch(next))
    ensures Inv(Step(s, Switch(next)))
  {
    hide Put;
    var s' := Step(s, Switch(next));
    forall j: nat ensures IsUsed(s', j) <==> IsUsed(s, j) {
    }
    forall i: nat, j: nat | IsUsed(s', i) && IsUsed(s', j) && i != j ensures Apart(s', i, j) {
      assert Apart(s, i, j);
    }
  }

  lemma CreateInv(s: Stacks, j: nat, base: nat)
    requires Enabled(s, Create(j, base))
    ensures Inv(Step(s, Create(j, base)))
  {
    var s' := Step(s, Create(j, base));
    forall i: nat | i != j ensures IsUsed(s', i) <==> IsUsed(s, i) {
    }
    forall i: nat, k: nat | IsUsed(s', i) && IsUsed(s', k) && i != k ensures Apart(s', i, k) {
      assert i != j && k != j ==> Apart(s, i, k);
    }
  }

  lemma ReapInv(s: Stacks, j: nat)
    requires Enabled(s, Reap(j))
    ensures Inv(Step(s, Reap(j)))
  {
    var s' := Step(s, Reap(j));
    forall i: nat ensures IsUsed(s', i) <==> IsUsed(s, i) && i != j {
    }
    forall i: nat, k: nat | IsUsed(s', i) && IsUsed(s', k) && i != k ensures Apart(s', i, k) {
      assert Apart(s, i, k);
    }
  }

  /** A stack, and the slot it belongs to, are left alone by every event that is not of this process. */
  lemma StepKeeps(s: Stacks, e: Event, j: nat)
    requires Enabled(s, e) && IsUsed(s, j) && j != s.current && e != Switch(j) && e != Reap(j)
    ensures var s' := Step(s, e);
            Inv(s') && s'.current != j && IsUsed(s', j) && s'.slots[j] == s.slots[j] && StackOf(s', j) == StackOf(s, j)
  {
    hide Step, Areas, Put, StackOf;
    StepInv(s, e);
    SlotKept(s, e, j);
    if e.Elsewhere? {
      ElsewhereKeeps(s, e, j);
    } else {
      WritesOwn(s, e);
      SameStack(s, Step(s, e), j);
    }
  }

  lemma SlotKept(s: Stacks, e: Event, j: nat)
    requires Enabled(s, e) && IsUsed(s, j) && j != s.current && e != Switch(j) && e != Reap(j)
    ensures var s' := Step(s, e); s'.current != j && IsUsed(s', j) && s'.slots[j] == s.slots[j]
    ensures s.slots[j].base <= s.slots[j].top <= |s.cpu.mem| && IsUsed(s, s.current) && Apart(s, j, s.current)
  {
    hide Put, Enter, TrapReturn;
  }

  lemma ElsewhereKeeps(s: Stacks, e: Event, j: nat)
    requires Enabled(s, e) && e.Elsewhere? && IsUsed(s, j) && s.slots[j].base <= s.slots[j].top <= |s.cpu.mem|
    ensures var s' := Step(s, e); s'.slots == s.slots && |s'.cpu.mem| == |s.cpu.mem| && StackOf(s', j) == StackOf(s, j)
  {
  }

  /** What lies apart from the running process's stack stays. */
  lemma SameStack(s: Stacks, s': Stacks, j: nat)
    requires IsUsed(s, j) && IsUsed(s, s.current) && Apart(s, j, s.current) && IsUsed(s', j)
        && s'.slots[j] == s.slots[j]
    requires s.slots[j].base <= s.slots[j].top <= |s.cpu.mem| == |s'.cpu.mem|
    requires forall i :: 0 <= i < |s.cpu.mem| && !(s.slots[s.current].base <= i < s.slots[s.current].top) ==>
        s'.cpu.mem[i] == s.cpu.mem[i]
    ensures StackOf(s', j) == StackOf(s, j)
  {
    forall i | s.slots[j].base <= i < s.slots[j].top ensures s'.cpu.mem[i] == s.cpu.mem[i] {
    }
  }

  /** Only the running process's stack is written. */
  lemma WritesOwn(s: Stacks, e: Event)
    requires Enabled(s, e) && !e.Elsewhere?
    ensures var s', slot := Step(s, e), s.slots[s.current];
            && slot.Used? && |s'.cpu.mem| == |s.cpu.mem|
            && forall i :: 0 <= i < |s.cpu.mem| && !(slot.base <= i < slot.top) ==> s'.cpu.mem[i] == s.cpu.mem[i]
  {
    hide Apart;
  }

  ghost predicate RunOk(s: Stacks, run: seq<Event>)
    decreases |run|
  {
    run == [] || (Enabled(s, run[0]) && RunOk(Step(s, run[0]), run[1..]))
  }

  ghost function Run(s: Stacks, run: seq<Event>): Stacks
    requires RunOk(s, run)
    decreases |run|
  {
    if run == [] then s else Run(Step(s, run[0]), run[1..])
  }

  lemma {:induction false} RunKeeps(s: Stacks, run: seq<Event>, j: nat)
    requires Inv(s) && RunOk(s, run) && IsUsed(s, j) && j != s.current && Switch(j) !in run && Reap(j) !in run
    ensures var t := Run(s, run);
            Inv(t) && t.current != j && IsUsed(t, j) && t.slots[j] == s.slots[j] && StackOf(t, j) == StackOf(s, j)
    decreases |run|
  {
    if run != [] {
      hide Inv, Step, Enabled, StackOf;
      StepKeeps(s, run[0], j);
      RunKeeps(Step(s, run[0]), run[1..], j);
    }
  }

  // Switching away and back

  lemma SwitchAway(s: Stacks, next: nat)
    requires Enabled(s, Switch(next))
    ensures var s', j := Step(s, Switch(next)), s.current; var top := s.slots[j].top;
            && Inv(s') && s'.current == next != j && IsUsed(s', j)
            && s'.slots[j] == s.slots[j].(context := s.cpu.sp - CALLEE_SAVED)
            && s'.cpu.mem[s.cpu.sp - CALLEE_SAVED..s.cpu.sp] == s.cpu.x[19..]
            && s'.cpu.mem[s.cpu.sp..top] == s.cpu.mem[s.cpu.sp..top]
  {
    StepInv(s, Switch(next));
  }

  lemma SwitchBack(s: Stacks, j: nat)
    requires Enabled(s, Switch(j))
    ensures var s' := Step(s, Switch(j));
            && Inv(s') && !s'.user && s'.current == j && IsUsed(s', j) && s'.slots[j] == s.slots[j]
            && s'.cpu.sp == s.slots[j].context + CALLEE_SAVED
            && s'.cpu.x[19..] == s.cpu.mem[s.slots[j].context..s.slots[j].context + CALLEE_SAVED]
            && StackOf(s', j) == StackOf(s, j)
  {
    StepInv(s, Switch(j));
    var s' := Step(s, Switch(j));
    assert Apart(s, j, s.current);
    assert OnStack(s, j, s.slots[j].context + CALLEE_SAVED);
    WritesOwn(s, Switch(j));
    hide Inv, Put;
    forall i | s.slots[j].base <= i < s.slots[j].top ensures s'.cpu.mem[i] == s.cpu.mem[i] {
    }
    var saved := s.slots[j].context;
    assert s'.cpu.mem[saved..saved + CALLEE_SAVED] == s.cpu.mem[saved..saved + CALLEE_SAVED];
  }

  /** From u the process that ran in s goes on: same x19 to x30, same stack pointer, same stack above it. */
  ghost predicate Resumed(s: Stacks, u: Stacks) {
    && IsUsed(s, s.current) && !u.user && u.current == s.current && u.cpu.x[19..] == s.cpu.x[19..]
    && u.cpu.sp == s.cpu.sp
    && var top := s.slots[s.current].top;
       s.cpu.sp <= top <= |u.cpu.mem| && top <= |s.cpu.mem| && u.cpu.mem[s.cpu.sp..top] == s.cpu.mem[s.cpu.sp..top]
  }

  /**
   A switch away from a process, any run of the others, and the switch back restore x19 to x30, the
   stack pointer, and all of the stack above it, the trap frame included.
   */
  lemma ContextRestored(s: Stacks, next: nat, run: seq<Event>)
    requires Enabled(s, Switch(next)) && RunOk(Step(s, Switch(next)), run)
    requires Switch(s.current) !in run && Reap(s.current) !in run
    requires !Run(Step(s, Switch(next)), run).user
    ensures var t := Run(Step(s, Switch(next)), run);
            Enabled(t, Switch(s.current)) && Resumed(s, Step(t, Switch(s.current)))
  {
    hide Step, Enabled, Run, RunOk, Inv, StackOf, Resumed;
    CanSwitch(s, next);
    var j, s1 := s.current, Step(s, Switch(next));
    SwitchAway(s, next);
    RunKeeps(s1, run, j);
    var t := Run(s1, run);
    CanSwitch(t, j);
    SwitchBack(t, j);
    SavedStack(s, s1, t, Step(t, Switch(j)));
  }

  lemma CanSwitch(s: Stacks, j: nat)
    ensures Inv(s) && !s.user && IsUsed(s, j) && j != s.current ==> Enabled(s, Switch(j))
    ensures Enabled(s, Switch(j)) ==> Inv(s) && !s.user && j != s.current && IsUsed(s, j) && IsUsed(s, s.current)
  {
  }

  /** What was saved in s1 when s switched away, still stands in t, and is loaded in u. */
  lemma SavedStack(s: Stacks, s1: Stacks, t: Stacks, u: Stacks)
    requires Inv(s) && Inv(s1) && Inv(t) && Inv(u) && !s.user && !u.user
    requires var j, sp := s.current, s.cpu.sp;
             && IsUsed(s, j) && IsUsed(s1, j) && IsUsed(t, j) && IsUsed(u, j) && u.current == j
             && s1.slots[j] == t.slots[j] == u.slots[j] == s.slots[j].(context := sp - CALLEE_SAVED)
             && s1.cpu.mem[sp - CALLEE_SAVED..sp] == s.cpu.x[19..]
             && s1.cpu.mem[sp..s.slots[j].top] == s.cpu.mem[sp..s.slots[j].top]
             && StackOf(t, j) == StackOf(s1, j) && StackOf(u, j) == StackOf(t, j)
             && u.cpu.sp == t.slots[j].context + CALLEE_SAVED
             && u.cpu.x[19..] == t.cpu.mem[t.slots[j].context..t.slots[j].context + CALLEE_SAVED]
    ensures Resumed(s, u)
  {
    var base, top, sp := s.slots[s.current].base, s.slots[s.current].top, s.cpu.sp;
    SameSlice(s1.cpu.mem, t.cpu.mem, base, top, sp - CALLEE_SAVED, sp);
    SameSlice(s1.cpu.mem, u.cpu.mem, base, top, sp, top);
  }

  lemma SameSlice(m: seq<Word>, n: seq<Word>, lo: nat, hi: nat, from: nat, to: nat)
    requires lo <= from <= to <= hi <= |m| && hi <= |n| && m[lo..hi] == n[lo..hi]
    ensures m[from..to] == n[from..to]
  {
    forall i | from <= i < to ensures m[i] == n[i] {
      assert m[i] == m[lo..hi][i - lo] && n[i] == n[lo..hi][i - lo];
    }
  }

  // From user code to user code

  /** The trap frame of a process: the top of its stack, where process->tf points. */
  function FrameOf(s: Stacks, j: nat): seq<Word>
    requires IsUsed(s, j) && FRAME_WORDS <= s.slots[j].top <= |s.cpu.mem|
  {
    s.cpu.mem[s.slots[j].top - FRAME_WORDS..s.slots[j].top]
  }

  /**
   An exception in user code writes the user registers exactly where the trap frame of the process
   is, leaves the stack pointer there and the frame's byte address in x0, and writes nothing else.
   */
  lemma EntryAtFrame(s: Stacks, trapno: Word, esr: Word)
    requires Enabled(s, Trap(trapno, esr)) && s.user
    ensures var s', j := Step(s, Trap(trapno, esr)), s.current; var tf := s.slots[j].base + FRAME_AT;
            && Inv(s') && !s'.user && s'.current == j && s'.slots == s.slots && s'.cpu.sp == tf
            && s.slots[j].top == tf + FRAME_WORDS <= |s'.cpu.mem| == |s.cpu.mem|
            && s'.cpu.x[0] == 8 * tf % WORD_LIMIT
            && FrameOf(s', j) == Frame(s.cpu, trapno, esr)
            && forall a :: 0 <= a < |s.cpu.mem| && !(tf <= a < tf + FRAME_WORDS) ==> s'.cpu.mem[a] == s.cpu.mem[a]
  {
    StepInv(s, Trap(trapno, esr));
  }

  /** The return to user code loads the frame. */
  lemma ReturnLoads(s: Stacks)
    requires Enabled(s, Return) && s.current != 0
    ensures var s', j := Step(s, Return), s.current;
            && Inv(s') && s'.user && s'.current == j && FRAME_WORDS <= s.slots[j].top <= |s.cpu.mem|
            && s'.cpu.sp == s.slots[j].top
            && UserRegs(s'.cpu) == FrameOf(s, j)[..32] + FrameOf(s, j)[34..]
  {
    StepInv(s, Return);
    var f := FrameOf(s, s.current);
    assert s.cpu.mem[s.cpu.sp..s.cpu.sp + FRAME_WORDS] == f;
    assert f[..31] + [f[31]] == f[..32] && [f[34], f[35]] == f[34..];
  }

  /** What user code sees of the processor: x0 to x30, sp_el0, elr, spsr. */
  function UserRegs(c: Cpu): (r: seq<Word>)
    ensures |r| == 34
  {
    c.x + [c.spEl0] + [c.elr, c.spsr]
  }

  /** Words of the frame that are kept while process j is in the kernel: those keep holds for. */
  ghost predicate Saved(t: Stacks, j: nat, top: nat, frame: seq<Word>, keep: nat -> bool)
    requires |frame| == FRAME_WORDS
  {
    && Inv(t) && j != 0 && IsUsed(t, j) && FRAME_WORDS <= t.slots[j].top == top <= |t.cpu.mem|
    && !(t.user && t.current == j)
    && forall k :: 0 <= k < FRAME_WORDS && keep(k) ==> FrameOf(t, j)[k] == frame[k]
  }

  /**
   Process j stays in the kernel during the event, is not reaped, and its own kernel code changes no
   word of its frame that keep holds for.
   */
  ghost predicate Spares(t: Stacks, e: Event, j: nat, keep: nat -> bool) {
    && e != Reap(j)
    && (t.current == j ==> e != Return)
    && (t.current == j && e.Work? && |e.stack| == STACK_WORDS && IsUsed(t, j)
        && STACK_WORDS <= t.slots[j].top <= |t.cpu.mem| ==>
          forall k :: 0 <= k < FRAME_WORDS && keep(k) ==> e.stack[FRAME_AT + k] == FrameOf(t, j)[k])
  }

  lemma StepSaved(t: Stacks, e: Event, j: nat, top: nat, frame: seq<Word>, keep: nat -> bool)
    requires |frame| == FRAME_WORDS && Saved(t, j, top, frame, keep) && Enabled(t, e) && Spares(t, e, j, keep)
    ensures Saved(Step(t, e), j, top, frame, keep)
  {
    StepInv(t, e);
    if j != t.current {
      OthersFrame(t, e, j);
    } else if e.Work? {
      WorkFrame(t, e, j);
    } else {
      OwnFrame(t, e);
    }
  }

  lemma OthersFrame(t: Stacks, e: Event, j: nat)
    requires Enabled(t, e) && j != 0 && j != t.current && IsUsed(t, j) && e != Reap(j)
    ensures var t' := Step(t, e);
            && IsUsed(t', j) && FRAME_WORDS <= t.slots[j].top == t'.slots[j].top <= |t.cpu.mem| == |t'.cpu.mem|
            && FrameOf(t', j) == FrameOf(t, j) && !(t'.user && t'.current == j)
  {
    var t', base, top := Step(t, e), t.slots[j].base, t.slots[j].top;
    if e == Switch(j) {
      SwitchBack(t, j);
    } else {
      StepKeeps(t, e, j);
    }
    SameSlice(t.cpu.mem, t'.cpu.mem, base, top, top - FRAME_WORDS, top);
  }

  lemma WorkFrame(t: Stacks, e: Event, j: nat)
    requires Enabled(t, e) && j != 0 && j == t.current && e.Work?
    ensures var t' := Step(t, e);
            && IsUsed(t, j) && t'.slots == t.slots && !t'.user
            && FRAME_WORDS <= t.slots[j].top <= |t.cpu.mem| == |t'.cpu.mem| && |e.stack| == STACK_WORDS
            && FrameOf(t', j) == e.stack[FRAME_AT..]
  {
    var t', base, top := Step(t, e), t.slots[j].base, t.slots[j].top;
    assert t'.cpu.mem[base..top] == e.stack;
    assert t'.cpu.mem[base..top][FRAME_AT..] == t'.cpu.mem[top - FRAME_WORDS..top];
  }

  /**
   In the kernel, a process's other events leave its frame alone: it may save a context below, or make
   or reap other processes.
   */
  lemma OwnFrame(t: Stacks, e: Event)
    requires Enabled(t, e) && t.current != 0 && !t.user && !e.Work? && e != Return
    ensures var t', j := Step(t, e), t.current;
            && IsUsed(t, j) && IsUsed(t', j) && !(t'.user && t'.current == j)
            && FRAME_WORDS <= t.slots[j].top == t'.slots[j].top <= |t.cpu.mem| == |t'.cpu.mem|
            && FrameOf(t', j) == FrameOf(t, j)
  {
    var t', j := Step(t, e), t.current;
    var top := t.slots[j].top;
    if e.Switch? {
      SwitchAway(t, e.next);
      SameSlice(t.cpu.mem, t'.cpu.mem, t.cpu.sp, top, top - FRAME_WORDS, top);
    } else if e.Elsewhere? {
      assert e.mem[t.slots[j].base..top] == StackOf(t, j);
      SameSlice(t.cpu.mem, t'.cpu.mem, t.slots[j].base, top, top - FRAME_WORDS, top);
    }
  }

  ghost predicate RunSpares(t: Stacks, run: seq<Event>, j: nat, keep: nat -> bool)
    requires RunOk(t, run)
    decreases |run|
  {
    run == [] || (Spares(t, run[0], j, keep) && RunSpares(Step(t, run[0]), run[1..], j, keep))
  }

  lemma {:induction false} RunSaved(t: Stacks, run: seq<Event>, j: nat, top: nat, frame: seq<Word>, keep: nat -> bool)
    requires |frame| == FRAME_WORDS && Saved(t, j, top, frame, keep) && RunOk(t, run) && RunSpares(t, run, j, keep)
    ensures Saved(Run(t, run), j, top, frame, keep)
    decreases |run|
  {
    if run != [] {
      hide Saved, Step, Enabled, Spares;
      StepSaved(t, run[0], j, top, frame, keep);
      RunSaved(Step(t, run[0]), run[1..], j, top, frame, keep);
    }
  }

  /** The words of the frame user code gets back; the trap number and the syndrome register are not among them. */
  function UserWord(k: nat): nat { if k < 32 then k else k + 2 }

  /**
   From an exception in user code of a process to its next return: whatever the kernel and the other
   processes do in between, however often they are switched to, the process finds every user
   register whose word of the frame the kernel's own work for it did not write.
   */
  lemma UserStateSurvives(s: Stacks, trapno: Word, esr: Word, run: seq<Event>, keep: nat -> bool)
    requires Enabled(s, Trap(trapno, esr)) && s.user
    requires RunOk(Step(s, Trap(trapno, esr)), run) && RunSpares(Step(s, Trap(trapno, esr)), run, s.current, keep)
    requires var t := Run(Step(s, Trap(trapno, esr)), run); t.current == s.current && Enabled(t, Return)
    ensures var u := Step(Run(Step(s, Trap(trapno, esr)), run), Return);
            && u.user && u.current == s.current && u.cpu.sp == s.cpu.sp
            && forall k :: 0 <= k < 34 && keep(UserWord(k)) ==> UserRegs(u.cpu)[k] == UserRegs(s.cpu)[k]
  {
    hide Inv, Step, Enabled, Run, RunOk, RunSpares, Frame, UserRegs, Saved;
    EntryAtFrame(s, trapno, esr);
    UserNotIdle(s, trapno, esr);
    var s1, j, top, frame := Step(s, Trap(trapno, esr)), s.current, s.cpu.sp, Frame(s.cpu, trapno, esr);
    SavedNow(s1, j, keep);
    RunSaved(s1, run, j, top, frame, keep);
    var t := Run(s1, run);
    ReturnLoads(t);
    SavedAt(t, j, top, frame, keep);
    FrameIsRegs(s.cpu, trapno, esr);
  }

  lemma UserNotIdle(s: Stacks, trapno: Word, esr: Word)
    requires Enabled(s, Trap(trapno, esr)) && s.user
    ensures s.current != 0 && IsUsed(s, s.current) && s.cpu.sp == s.slots[s.current].top
  {
  }

  lemma SavedNow(t: Stacks, j: nat, keep: nat -> bool)
    requires Inv(t) && !t.user && t.current == j != 0
    ensures IsUsed(t, j) && FRAME_WORDS <= t.slots[j].top <= |t.cpu.mem|
        && Saved(t, j, t.slots[j].top, FrameOf(t, j), keep)
  {
  }

  lemma SavedAt(t: Stacks, j: nat, top: nat, frame: seq<Word>, keep: nat -> bool)
    requires |frame| == FRAME_WORDS && Saved(t, j, top, frame, keep)
    ensures IsUsed(t, j) && FRAME_WORDS <= t.slots[j].top == top <= |t.cpu.mem|
    ensures forall k :: 0 <= k < FRAME_WORDS && keep(k) ==> FrameOf(t, j)[k] == frame[k]
  {
  }

  lemma FrameIsRegs(c: Cpu, trapno: Word, esr: Word)
    ensures forall k :: 0 <= k < 34 ==> UserRegs(c)[k] == Frame(c, trapno, esr)[UserWord(k)]
  {
  }

  predicate EveryWord(k: nat) { true }

  /**
   If the kernel's work leaves the whole frame alone, as in an interrupt, user code goes on with the
   very same registers.
   */
  lemma InterruptIsInvisible(s: Stacks, trapno: Word, esr: Word, run: seq<Event>)
    requires Enabled(s, Trap(trapno, esr)) && s.user && RunOk(Step(s, Trap(trapno, esr)), run)
    requires RunSpares(Step(s, Trap(trapno, esr)), run, s.current, EveryWord)
    requires var t := Run(Step(s, Trap(trapno, esr)), run); t.current == s.current && Enabled(t, Return)
    ensures SameUser(Step(Run(Step(s, Trap(trapno, esr)), run), Return).cpu, s.cpu)
  {
    hide Step, Enabled, Run, RunOk, RunSpares, Inv, Saved;
    UserStateSurvives(s, trapno, esr, run, EveryWord);
    SameRegs(Step(Run(Step(s, Trap(trapno, esr)), run), Return).cpu, s.cpu);
  }

  lemma SameRegs(c: Cpu, d: Cpu)
    requires c.sp == d.sp && forall k :: 0 <= k < 34 ==> UserRegs(c)[k] == UserRegs(d)[k]
    ensures SameUser(c, d)
  {
    forall i | 0 <= i < 31 ensures c.x[i] == d.x[i] {
      assert UserRegs(c)[i] == UserRegs(d)[i];
    }
    assert UserRegs(c)[31] == UserRegs(d)[31] && UserRegs(c)[32] == UserRegs(d)[32]
        && UserRegs(c)[33] == UserRegs(d)[33];
  }

  // The assembly, in place

  class Processor {
    var x: Regs
    var spEl0: Word
    var elr: Word
    var spsr: Word
    var sp: nat
    const mem: array<Word>

    constructor (mem: array<Word>, sp: nat)
      ensures this.mem == mem && this.sp == sp
    {
      this.mem, this.sp := mem, sp;
      x := seq(31, _ => 0);
      spEl0, elr, spsr := 0, 0, 0;
    }

    ghost function State(): Cpu
      reads this, mem
    {
      Cpu(x, spEl0, elr, spsr, sp, mem[..])
    }

    /** stp. */
    method StorePair(a: nat, u: Word, v: Word, ghost m: seq<Word>, ghost base: nat, ghost ws: seq<Word>)
      requires a + 2 <= mem.Length == |m| && a == base + |ws| && mem[..] == Put(m, base, ws)
      modifies mem
      ensures mem[..] == Put(m, base, ws + [u, v])
    {
      PutMore(m, base, ws, u, v);
      mem[a], mem[a + 1] := u, v;
      assert mem[..] == Put(m, base, ws)[a := u][a + 1 := v];
    }

    /** Store n pairs of registers, from register first on, at address a. */
    method StorePairs(a: nat, first: nat, n: nat)
      requires first + 2 * n <= 31 && a + 2 * n <= mem.Length
      modifies mem
      ensures mem[..] == Put(old(mem[..]), a, x[first..first + 2 * n])
    {
      hide Put;
      ghost var m := mem[..];
      PutNothing(m, a);
      for k := 0 to n
        invariant mem[..] == Put(m, a, x[first..first + 2 * k])
      {
        var i := first + 2 * k;
        assert x[first..i] + [x[i], x[i + 1]] == x[first..i + 2];
        StorePair(a + 2 * k, x[i], x[i + 1], m, a, x[first..i]);
      }
    }

    lemma PutNothing(m: seq<Word>, a: nat)
      requires a <= |m|
      ensures Put(m, a, []) == m
    {
    }

    method KernelEntry(trapno: Word, esr: Word)
      requires FRAME_WORDS <= sp <= mem.Length
      modifies `sp, `x, mem
      ensures State() == Enter(old(State()), trapno, esr)
    {
      hide Put, Frame;
      ghost var c := State();
      sp := sp - FRAME_WORDS;
      StorePairs(sp, 0, 15);
      StorePair(sp + 30, x[30], spEl0, c.mem, sp, x[..30]);
      StorePair(sp + 32, trapno, esr, c.mem, sp, x[..30] + [x[30], spEl0]);
      StorePair(sp + 34, elr, spsr, c.mem, sp, x[..30] + [x[30], spEl0] + [trapno, esr]);
      FrameParts(c, trapno, esr);
      x := x[1 := spsr];
      x := x[0 := 8 * sp % WORD_LIMIT];
      assert x == c.x[0 := 8 * sp % WORD_LIMIT][1 := c.spsr];
    }

    lemma FrameParts(c: Cpu, trapno: Word, esr: Word)
      ensures c.x[..30] + [c.x[30], c.spEl0] + [trapno, esr] + [c.elr, c.spsr] == Frame(c, trapno, esr)
    {
    }

    method ReturnFromTrap()
      requires sp + FRAME_WORDS <= mem.Length
      modifies this
      ensures State() == TrapReturn(old(State()))
    {
      elr, spsr := mem[sp + 34], mem[sp + 35];
      spEl0 := mem[sp + 31];
      x := mem[sp..sp + 31];
      sp := sp + FRAME_WORDS;
      assert x == old(State()).mem[old(sp)..old(sp) + FRAME_WORDS][..31];
    }

    /**
     swap: push the callee-saved registers, leave the stack pointer for the caller to find, pop the next
     process's.
     */
    method SwapStacks(next: nat) returns (saved: nat)
      requires CALLEE_SAVED <= sp <= mem.Length && next + CALLEE_SAVED <= mem.Length
      modifies `sp, `x, mem
      ensures (saved, State()) == Swap(old(State()), next)
    {
      ghost var c := State();
      hide Put;
      sp := sp - CALLEE_SAVED;
      StorePairs(sp, 19, 6);
      assert x[19..31] == c.x[19..];
      x := x[2 := 8 * sp % WORD_LIMIT];
      assert x[..19] == c.x[..19][2 := 8 * sp % WORD_LIMIT];
      saved := sp;
      sp := next;
      x := x[..19] + mem[sp..sp + CALLEE_SAVED];
      sp := sp + CALLEE_SAVED;
    }
  }
}
