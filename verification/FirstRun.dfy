/**
 A process made by fork or at start-up reaches user code on its first switch; its traps write the
 trap frame of the joint model.
 */
module FirstRun {
  import opened Words
  import Paging
  import System
  import C = Context

  /** An exception in user code does to the process's stack page what saving a frame does in the joint model. */
  lemma EntrySavesFrame(s: C.Stacks, trapno: Word, esr: Word)
    requires C.Enabled(s, C.Trap(trapno, esr)) && s.user
    ensures var s', j := C.Step(s, C.Trap(trapno, esr)), s.current;
            && C.IsUsed(s, j) && C.IsUsed(s', j)
            && s.slots[j].base <= s.slots[j].top <= |s.cpu.mem| && s'.slots[j] == s.slots[j]
            && |s'.cpu.mem| == |s.cpu.mem|
            && |C.StackOf(s, j)| == Paging.PAGE_WORDS
            && C.StackOf(s', j) == System.SetFrame(C.StackOf(s, j), C.Frame(s.cpu, trapno, esr))
  {
    C.EntryAtFrame(s, trapno, esr);
    hide C.Step, C.Frame;
    var s', j := C.Step(s, C.Trap(trapno, esr)), s.current;
    var base, f := s.slots[j].base, C.Frame(s.cpu, trapno, esr);
    assert C.StackOf(s', j)[System.FRAME..] == C.FrameOf(s', j) == f;
    assert C.StackOf(s', j)[..System.FRAME] == C.StackOf(s, j)[..System.FRAME];
  }

  lemma StackParts(trapReturn: Word, frame: System.TrapFrame)
    ensures System.FreshStack(trapReturn)[System.FRAME - 1] == trapReturn
    ensures System.FrameOf(System.FreshStack(trapReturn)) == System.NewFrame()
    ensures var stack := System.SetFrame(System.FreshStack(trapReturn), frame);
            stack[System.FRAME - 1] == trapReturn && System.FrameOf(stack) == frame
  {
  }

  /**
   Process j, new in slot j with the given stack page, is switched to for the first time after any run
   of the others.
   */
  ghost predicate NewProcess(s: C.Stacks, j: nat, base: nat, stack: Paging.Page, run: seq<C.Event>) {
    && j != 0 && C.Enabled(s, C.Create(j, base)) && s.cpu.mem[base..base + C.STACK_WORDS] == stack
    && C.RunOk(C.Step(s, C.Create(j, base)), run) && C.Switch(j) !in run && C.Reap(j) !in run
    && !C.Run(C.Step(s, C.Create(j, base)), run).user
  }

  /** The state after the switch. */
  ghost function Started(s: C.Stacks, j: nat, base: nat, run: seq<C.Event>): C.Stacks
    requires C.Enabled(s, C.Create(j, base)) && C.RunOk(C.Step(s, C.Create(j, base)), run)
    requires C.Enabled(C.Run(C.Step(s, C.Create(j, base)), run), C.Switch(j))
  {
    C.Step(C.Run(C.Step(s, C.Create(j, base)), run), C.Switch(j))
  }

  lemma CreateIs(s: C.Stacks, j: nat, base: nat)
    requires j != 0 && C.Enabled(s, C.Create(j, base))
    ensures var s' := C.Step(s, C.Create(j, base));
            && C.Inv(s') && j != s'.current && C.IsUsed(s', j) && s'.cpu == s.cpu
            && s'.slots[j] == C.Used(base, base + C.STACK_WORDS, base + C.NEW_CONTEXT)
  {
    C.StepInv(s, C.Create(j, base));
  }

  /** The first switch goes to the saved return address, with sp at the trap frame, and can return from there. */
  lemma FirstSwitchTo(s: C.Stacks, j: nat, base: nat, stack: Paging.Page, run: seq<C.Event>)
    requires NewProcess(s, j, base, stack, run)
    ensures C.Enabled(C.Run(C.Step(s, C.Create(j, base)), run), C.Switch(j))
    ensures var u := Started(s, j, base, run);
            && u.cpu.sp == base + System.FRAME && u.cpu.x[30] == stack[System.FRAME - 1] && C.Enabled(u, C.Return)
            && C.UserRegs(C.Step(u, C.Return).cpu) == System.FrameOf(stack)[..32] + System.FrameOf(stack)[34..]
            && C.Step(u, C.Return).user && C.Step(u, C.Return).current == j
  {
    hide C.Inv, C.Enabled, C.Step, C.Run, C.RunOk, C.UserRegs;
    CreateIs(s, j, base);
    var s1 := C.Step(s, C.Create(j, base));
    C.RunKeeps(s1, run, j);
    var t := C.Run(s1, run);
    C.CanSwitch(t, j);
    C.SwitchBack(t, j);
    var u := C.Step(t, C.Switch(j));
    StartedIs(t, u, j, base, stack);
    CanReturn(u);
    C.ReturnLoads(u);
    assert C.FrameOf(u, j) == C.StackOf(u, j)[C.FRAME_AT..] == System.FrameOf(stack);
  }

  lemma StartedIs(t: C.Stacks, u: C.Stacks, j: nat, base: nat, stack: Paging.Page)
    requires C.Inv(t) && C.IsUsed(t, j) && t.slots[j] == C.Used(base, base + C.STACK_WORDS, base + C.NEW_CONTEXT)
    requires C.StackOf(t, j) == stack
    requires u.cpu.x[19..] == t.cpu.mem[base + C.NEW_CONTEXT..base + C.FRAME_AT]
    ensures u.cpu.x[30] == stack[System.FRAME - 1]
  {
    assert u.cpu.x[30] == u.cpu.x[19..][11] == t.cpu.mem[base + C.NEW_CONTEXT..base + C.FRAME_AT][11];
    assert t.cpu.mem[base + C.FRAME_AT - 1] == C.StackOf(t, j)[C.FRAME_AT - 1];
  }

  lemma CanReturn(u: C.Stacks)
    requires C.Inv(u) && !u.user && u.current != 0 && u.cpu.sp == u.slots[u.current].top - C.FRAME_WORDS
    ensures C.Enabled(u, C.Return)
  {
  }

  /**
   The first switch to a process whose stack is fresh goes to trap_return with sp at the trap frame,
   and trap_return then enters user code at 0x400000 with the user stack at the end of that page.
   */
  lemma FirstSwitch(s: C.Stacks, j: nat, base: nat, trapReturn: Word, run: seq<C.Event>)
    requires NewProcess(s, j, base, System.FreshStack(trapReturn), run)
    ensures C.Enabled(C.Run(C.Step(s, C.Create(j, base)), run), C.Switch(j))
    ensures var u := Started(s, j, base, run);
            && u.cpu.sp == base + System.FRAME && u.cpu.x[30] == trapReturn && C.Enabled(u, C.Return)
            && var v := C.Step(u, C.Return);
               && v.user && v.current == j && v.cpu.elr == Paging.USER_VA
               && v.cpu.spEl0 == Paging.USER_VA + Paging.PAGE_SIZE
               && v.cpu.spsr == 0 && v.cpu.x == seq(31, _ => 0)
  {
    hide C.Inv, C.Enabled, C.Step, C.Run, C.RunOk, System.FreshStack, System.FrameOf, Started, C.UserRegs;
    FirstSwitchTo(s, j, base, System.FreshStack(trapReturn), run);
    StackParts(trapReturn, System.NewFrame());
    RegsOf(C.Step(Started(s, j, base, run), C.Return).cpu, System.NewFrame());
  }

  /** A child of fork goes to trap_return in the same way, and there gets its parent's registers with x0 = 0. */
  lemma FirstSwitchOfChild(s: C.Stacks, j: nat, base: nat, trapReturn: Word, frame: System.TrapFrame, run: seq<C.Event>)
    requires NewProcess(s, j, base, System.SetFrame(System.FreshStack(trapReturn), frame[System.X0 := 0]), run)
    ensures C.Enabled(C.Run(C.Step(s, C.Create(j, base)), run), C.Switch(j))
    ensures var u := Started(s, j, base, run);
            && u.cpu.sp == base + System.FRAME && u.cpu.x[30] == trapReturn && C.Enabled(u, C.Return)
            && var v := C.Step(u, C.Return);
               && v.user && v.current == j && v.cpu.x[0] == 0 && v.cpu.x[1..] == frame[1..31]
               && v.cpu.spEl0 == frame[31] && v.cpu.elr == frame[34] && v.cpu.spsr == frame[35]
  {
    hide C.Inv, C.Enabled, C.Step, C.Run, C.RunOk, System.FreshStack, System.FrameOf, System.SetFrame, Started,
         C.UserRegs;
    var childFrame := frame[System.X0 := 0];
    FirstSwitchTo(s, j, base, System.SetFrame(System.FreshStack(trapReturn), childFrame), run);
    StackParts(trapReturn, childFrame);
    RegsOf(C.Step(Started(s, j, base, run), C.Return).cpu, childFrame);
  }

  lemma RegsOf(c: C.Cpu, frame: System.TrapFrame)
    requires C.UserRegs(c) == frame[..32] + frame[34..]
    ensures c.x == frame[..31] && c.spEl0 == frame[31] && c.elr == frame[34] && c.spsr == frame[35]
  {
    var r := C.UserRegs(c);
    assert r[..31] == c.x && r[31] == c.spEl0 && r[32] == c.elr && r[33] == c.spsr;
    assert r[..31] == frame[..31] && r[32] == frame[34..][0] && r[33] == frame[34..][1];
  }
}
