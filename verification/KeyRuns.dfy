/**
 The key buffer and the scheduler together: a read sleeps exactly when the ring is empty, a key
 interrupt stores its character and wakes the sleepers, and what runs of both guarantee.
 */
module KeyRuns {
  import opened Machine
  import I = MachineInv
  import L = MachineLaws
  import K = Keyboard

  datatype Joint = Joint(k: Kernel, b: K.Board)

  /** Other stands for every event of the scheduler that is neither a key nor the start of a read. */
  datatype Input = Press(ch: char) | ReadCall | Other(e: Event)

  /** The scheduler's event: whether a read finds the ring empty is read off the ring. */
  function KernelEvent(j: Joint, e: Input): Event {
    match e
    case Press(_) => Key
    case ReadCall => ReadKey(K.Empty(j.b.ring))
    case Other(event) => event
  }

  /** What happens to the ring: a read that finds a character ends in the same stretch of kernel code. */
  function BoardEvents(j: Joint, e: Input): seq<K.Event>
    requires Slots(j.k)
  {
    match e
    case Press(ch) => [K.Press(ch)]
    case ReadCall =>
      if K.Empty(j.b.ring) then [K.Begin(j.k.current)] else [K.Begin(j.k.current), K.Finish(j.k.current)]
    case Other(event) =>
      if event.Resume? && Current(j.k).call.InReadKey? then [K.Finish(j.k.current)] else []
  }

  predicate CanStep(j: Joint, e: Input) {
    Enabled(j.k, KernelEvent(j, e)) && (e.Other? ==> !e.e.Key? && !e.e.ReadKey?)
  }

  // Where a process is in the read

  datatype Phase = NotReading | Asleep | Woken

  function PhaseOf(p: Proc): Phase {
    if !p.call.InReadKey? then NotReading else if p.state == Sleep then Asleep else Woken
  }

  /** A killed process was in no blocking call. */
  ghost predicate DeadAway(k: Kernel)
    requires Slots(k)
  {
    forall i :: 0 <= i < NUM_PROC && k.procs[i].state == Killed ==> k.procs[i].call.User?
  }

  /**
   The reads under way are those of the processes in the call, and the readers asleep are those the
   scheduler has asleep.
   */
  ghost predicate Match(j: Joint)
    requires Slots(j.k)
  {
    && (forall p: nat :: p in j.b.readers <==> p < NUM_PROC && !PhaseOf(j.k.procs[p]).NotReading?)
    && (forall p :: p in j.b.readers && p < NUM_PROC ==> (j.b.readers[p].asleep <==> PhaseOf(j.k.procs[p]).Asleep?))
  }

  ghost predicate Coupled(j: Joint) {
    I.Inv(j.k) && Slots(j.k) && DeadAway(j.k) && K.Tracks(j.b) && Match(j)
  }

  /** No slot's phase changes, and no process is killed inside a call. */
  ghost predicate SamePhases(s: Kernel, s': Kernel) {
    && Slots(s) && Slots(s')
    && forall i :: 0 <= i < NUM_PROC ==>
         PhaseOf(s'.procs[i]) == PhaseOf(s.procs[i]) && (s'.procs[i].state == Killed ==> s'.procs[i].call.User?)
  }

  lemma WakePhases(s: Kernel, w: int)
    requires I.Core(s) && DeadAway(s) && w != WAIT_KEY
    ensures SamePhases(s, WakeUp(s, w))
  {
    I.WakeUpSame(s, w);
    hide I.Located, I.Pids, I.NoLostWakeup, WakeUp;
  }

  lemma SchedulePhases(s: Kernel)
    requires I.Core(s) && DeadAway(s)
    ensures NextSlot(s) < NUM_PROC && SamePhases(s, Schedule(s))
  {
    L.ReadyHead(s);
    hide I.Located, I.Pids, I.NoLostWakeup;
  }

  lemma Phases(a: Kernel, b: Kernel, c: Kernel)
    requires SamePhases(a, b) && SamePhases(b, c)
    ensures SamePhases(a, c)
  {
  }

  lemma YieldPhases(s: Kernel)
    requires I.Core(s) && I.OneRunning(s) && I.Sleepers(s) && DeadAway(s)
    ensures SamePhases(s, Yield(s))
  {
    hide I.Core, SamePhases, I.Sleepers, Schedule;
    I.CoreSlots(s);
    if s.ready != [] {
      I.PutBackCore(s);
      PutBackPhases(s);
      SchedulePhases(I.PutBack(s));
      Phases(s, I.PutBack(s), Schedule(I.PutBack(s)));
    } else {
      assert SamePhases(s, s) by { SameSame(s); }
    }
  }

  lemma SameSame(s: Kernel)
    requires Slots(s) && DeadAway(s)
    ensures SamePhases(s, s)
  {
  }

  lemma PutBackPhases(s: Kernel)
    requires Slots(s) && I.OneRunning(s) && DeadAway(s)
    ensures SamePhases(s, I.PutBack(s)) && (Slots(I.PutBack(s)) ==> DeadAway(I.PutBack(s)))
  {
  }

  lemma TimerPhases(s: Kernel)
    requires I.Inv(s) && Slots(s) && DeadAway(s)
    ensures SamePhases(s, Yield(TickWake(s)))
  {
    var ticked := s.(ticks := s.ticks + 1);
    I.TickCore(s);
    WakePhases(ticked, WAIT_TICK);
    I.TickWakeCore(s);
    AwayKept(ticked, TickWake(s));
    hide I.Core, I.Sleepers, I.OneRunning, SamePhases, WakeUp, Yield;
    YieldPhases(TickWake(s));
    assert SamePhases(s, TickWake(s)) by { SameTable(s, ticked, TickWake(s)); }
    Phases(s, TickWake(s), Yield(TickWake(s)));
  }

  lemma SameTable(s: Kernel, r: Kernel, s': Kernel)
    requires Slots(s) && r.procs == s.procs && SamePhases(r, s')
    ensures SamePhases(s, s')
  {
  }

  lemma AwayKept(s: Kernel, s': Kernel)
    requires SamePhases(s, s')
    ensures DeadAway(s')
  {
  }

  /** Falling asleep in another call, from user code or from that call. */
  lemma SleepPhases(s: Kernel, w: int, call: Call)
    requires I.Inv(s) && Slots(s) && DeadAway(s) && s.current != 0 && !Current(s).call.InReadKey? && !call.InReadKey?
    ensures SamePhases(s, SleepOn(s, w, call))
  {
    I.FallAsleepLocated(s, w, call);
    ReadyOf(s);
    hide I.Located, I.Pids, I.NoLostWakeup;
  }

  lemma ReadyOf(s: Kernel)
    requires I.Inv(s)
    ensures Slots(s)
        && (s.ready != [] ==> s.ready[0] != 0 && s.ready[0] != s.current && s.procs[s.ready[0]].state == Ready)
    ensures s.procs[0].state != Sleep
  {
    L.ReadyHead(s);
    L.NotQueuedAny(s);
    hide I.Located, I.Pids, I.NoLostWakeup, I.Waits;
  }

  lemma ExitPhases(s: Kernel)
    requires I.Inv(s) && Slots(s) && DeadAway(s) && s.current != 0 && Current(s).call.User?
    ensures SamePhases(s, ExitProcess(s))
  {
    I.KillingLocated(s);
    I.WakeUpSame(I.Killing(s), WAIT_CHILD);
    I.DieCore(s);
    DiePhases(s);
    hide I.Core, I.Sleepers, I.OneRunning, SamePhases, WakeUp, Schedule;
    AwayKept(s, Die(s));
    SchedulePhases(Die(s));
    Phases(s, Die(s), Schedule(Die(s)));
  }

  lemma DiePhases(s: Kernel)
    requires I.Inv(s) && Slots(s) && DeadAway(s) && s.current != 0 && Current(s).call.User? && Slots(Die(s))
    ensures SamePhases(s, Die(s))
  {
    I.KillingLocated(s);
    I.WakeUpSame(I.Killing(s), WAIT_CHILD);
    hide I.Located, I.Pids, I.NoLostWakeup, WakeUp;
  }

  lemma WaitPhases(s: Kernel, pid: int)
    requires I.Inv(s) && Slots(s) && DeadAway(s) && s.current != 0 && !Current(s).call.InReadKey?
    ensures SamePhases(s, WaitRound(s, pid))
  {
    var k := FirstWaiter(s.procs, s.killed, pid);
    hide FirstWaiter;
    if k < |s.killed| {
      I.ReapLocated(s, k);
      hide I.Located, I.Pids, I.NoLostWakeup, I.Waits;
      assert k < |s.killed| ==> s.procs[s.killed[k]].call.User?;
    } else {
      hide I.Core, I.Sleepers, I.OneRunning, SamePhases, SleepOn;
      SleepPhases(s, WAIT_CHILD, InWait(pid));
    }
  }

  lemma ForkPhases(s: Kernel, pages: Pages)
    requires I.Inv(s) && Slots(s) && DeadAway(s) && FindUnused(s.procs) < NUM_PROC
    ensures SamePhases(s, ForkProcess(s, pages))
  {
    I.ForkIsFresh(s);
    hide I.Located, I.Pids, I.NoLostWakeup, I.Waits;
  }

  lemma SleepRoundPhases(s: Kernel, since: nat, n: nat)
    requires I.Inv(s) && Slots(s) && DeadAway(s) && s.current != 0 && !Current(s).call.InReadKey?
    ensures SamePhases(s, SleepRound(s, since, n))
  {
    hide I.Core, I.Sleepers, SleepOn;
    if s.ticks - since < n {
      SleepPhases(s, WAIT_TICK, InSleep(since, n));
    }
  }

  /** Events that are no part of a keyboard read change no process's phase. */
  lemma OtherPhases(s: Kernel, e: Event)
    requires I.Inv(s) && Slots(s) && DeadAway(s) && Enabled(s, e) && !e.Key? && !e.ReadKey?
    requires !(e.Resume? && Current(s).call.InReadKey?)
    ensures SamePhases(s, Step(s, e))
  {
    hide I.Core, I.OneRunning, I.Sleepers, WakeUp, SleepOn, WaitRound, SleepRound, ExitProcess, Yield, TickWake,
         ForkProcess, SamePhases,
         DeadAway;
    match e
    case Timer => TimerPhases(s);
    case Exit => ExitPhases(s);
    case Wait(pid) => WaitPhases(s, pid);
    case Fork(pages) => ForkPhases(s, pages);
    case SleepTicks(n) => SleepRoundPhases(s, s.ticks, n);
    case Stay => SameSame(s);
    case Resume =>
      L.NotIdle(s);
      if Current(s).call.InWait? {
        WaitPhases(s, Current(s).call.pid);
      } else {
        SleepRoundPhases(s, Current(s).call.since, Current(s).call.ticks);
      }
    case _ =>
  }

  /** A key wakes every reader and changes no other phase. */
  lemma KeyPhases(s: Kernel)
    requires I.Inv(s) && Slots(s) && DeadAway(s)
    ensures var s' := WakeUp(s, WAIT_KEY);
            && Slots(s') && DeadAway(s')
            && forall i :: 0 <= i < NUM_PROC ==>
                 PhaseOf(s'.procs[i]) == if PhaseOf(s.procs[i]).Asleep? then Woken else PhaseOf(s.procs[i])
  {
    I.WakeUpSame(s, WAIT_KEY);
    hide WakeUp, I.NoDup, I.Pids, I.NoLostWakeup;
  }

  /** A read that finds the ring empty puts its process to sleep and changes no other phase. */
  lemma BeginPhases(s: Kernel)
    requires I.Inv(s) && Slots(s) && DeadAway(s) && s.current != 0 && Current(s).call.User?
    ensures var s' := SleepOn(s, WAIT_KEY, InReadKey);
            && Slots(s') && DeadAway(s')
            && forall i :: 0 <= i < NUM_PROC ==>
                PhaseOf(s'.procs[i]) == if i == s.current then Asleep else PhaseOf(s.procs[i])
  {
    I.FallAsleepLocated(s, WAIT_KEY, InReadKey);
    ReadyOf(s);
    hide I.Located, I.Pids, I.NoLostWakeup;
  }

  // One step

  lemma NoEvents(b: K.Board)
    requires K.Tracks(b)
    ensures K.RunOk(b, []) && K.Run(b, []) == b
  {
  }

  lemma OneEvent(b: K.Board, e: K.Event)
    requires K.Tracks(b) && K.Enabled(b, e)
    ensures K.RunOk(b, [e]) && K.Run(b, [e]) == K.Step(b, e) && K.Tracks(K.Step(b, e))
  {
    K.StepTracks(b, e);
    assert [e][1..] == [];
  }

  lemma TwoEvents(b: K.Board, e: K.Event, f: K.Event)
    requires K.Tracks(b) && K.Enabled(b, e) && K.Enabled(K.Step(b, e), f)
    ensures K.Tracks(K.Step(b, e)) && K.RunOk(b, [e, f]) && K.Run(b, [e, f]) == K.Step(K.Step(b, e), f)
  {
    K.StepTracks(b, e);
    OneEvent(K.Step(b, e), f);
    assert [e, f][1..] == [f];
  }

  ghost function Next(j: Joint, e: Input): Joint
    requires Coupled(j) && CanStep(j, e)
  {
    BoardReady(j, e);
    Joint(Step(j.k, KernelEvent(j, e)), K.Run(j.b, BoardEvents(j, e)))
  }

  /** The ring's events are possible: the reader that ends its read was woken, the one that begins was in no read. */
  lemma BoardReady(j: Joint, e: Input)
    requires Coupled(j) && CanStep(j, e)
    ensures K.RunOk(j.b, BoardEvents(j, e))
  {
    hide I.Core, I.Sleepers, K.Tracks, K.RunOk, K.Run;
    match e
    case Press(ch) => OneEvent(j.b, K.Press(ch));
    case ReadCall =>
      OneEvent(j.b, K.Begin(j.k.current));
      if !K.Empty(j.b.ring) {
        TwoEvents(j.b, K.Begin(j.k.current), K.Finish(j.k.current));
      }
    case Other(event) =>
      NoEvents(j.b);
      if event.Resume? && Current(j.k).call.InReadKey? {
        assert j.k.procs[j.k.current].state == Running;
        OneEvent(j.b, K.Finish(j.k.current));
      }
  }

  lemma PressMatch(j: Joint, ch: char)
    requires Coupled(j) && CanStep(j, Press(ch))
    ensures Coupled(Next(j, Press(ch)))
  {
    hide I.Inv, K.Tracks, WakeUp;
    I.StepInv(j.k, Key);
    KeyPhases(j.k);
    OneEvent(j.b, K.Press(ch));
  }

  lemma ReadMatch(j: Joint)
    requires Coupled(j) && CanStep(j, ReadCall)
    ensures Coupled(Next(j, ReadCall))
  {
    hide I.Inv, K.Tracks, SleepOn, K.Take;
    var i := j.k.current;
    I.StepInv(j.k, KernelEvent(j, ReadCall));
    K.BeginIs(j.b, i);
    OneEvent(j.b, K.Begin(i));
    if K.Empty(j.b.ring) {
      BeginPhases(j.k);
    } else {
      TwoEvents(j.b, K.Begin(i), K.Finish(i));
      K.FinishIs(K.Step(j.b, K.Begin(i)), i);
    }
  }

  lemma OtherMatch(j: Joint, e: Event)
    requires Coupled(j) && CanStep(j, Other(e))
    ensures Coupled(Next(j, Other(e)))
  {
    hide I.Inv, K.Tracks, Step, K.Take;
    I.StepInv(j.k, e);
    NoEvents(j.b);
    if e.Resume? && Current(j.k).call.InReadKey? {
      RunningReader(j);
      OneEvent(j.b, K.Finish(j.k.current));
      K.FinishIs(j.b, j.k.current);
      ResumeIs(j.k);
    } else {
      OtherPhases(j.k, e);
    }
  }

  lemma ResumeIs(k: Kernel)
    requires Enabled(k, Resume) && Current(k).call.InReadKey?
    ensures Step(k, Resume) == k.(procs := k.procs[k.current := Current(k).(call := User)])
  {
  }

  lemma RunningReader(j: Joint)
    requires Coupled(j) && Current(j.k).call.InReadKey?
    ensures K.Enabled(j.b, K.Finish(j.k.current))
  {
    hide I.Core, I.Sleepers, K.Tracks;
    assert j.k.procs[j.k.current].state == Running;
  }

  /** Every step keeps scheduler and ring in agreement: who is in the read, and who of them sleeps. */
  lemma NextCoupled(j: Joint, e: Input)
    requires Coupled(j) && CanStep(j, e)
    ensures Coupled(Next(j, e))
  {
    hide Coupled, CanStep, Next;
    match e
    case Press(ch) => PressMatch(j, ch);
    case ReadCall => ReadMatch(j);
    case Other(event) => OtherMatch(j, event);
  }

  // Runs

  ghost predicate RunOk(j: Joint, run: seq<Input>)
    requires Coupled(j)
    decreases |run|
  {
    run == [] || (CanStep(j, run[0]) && (NextCoupled(j, run[0]); RunOk(Next(j, run[0]), run[1..])))
  }

  ghost function Run(j: Joint, run: seq<Input>): Joint
    requires Coupled(j) && RunOk(j, run)
    decreases |run|
  {
    if run == [] then j else
    NextCoupled(j, run[0]);
    Run(Next(j, run[0]), run[1..])
  }

  // What each step returns

  /** By the step a keyboard read returns to user code: one that finds a character, or one that was woken and runs. */
  ghost predicate Completes(j: Joint, e: Input)
    requires Slots(j.k)
  {
    || (e.ReadCall? && K.Ok(j.b.ring) && K.Queue(j.b.ring) != [])
    || (e == Other(Resume) && Current(j.k).call.InReadKey?)
  }

  /**
   A key is stored unless 499 wait. A read that finds characters takes the first one waiting and goes
   on running; one that finds none takes nothing and sleeps. A woken reader takes the character at the
   index it captured, and is back in user code. Nothing else changes the ring or returns a character.
   */
  ghost predicate KeyOutcome(j: Joint, e: Input, j': Joint)
    requires Slots(j.k) && Slots(j'.k)
  {
    && K.Ok(j.b.ring) && K.Ok(j'.b.ring)
    && var queue, queue' := K.Queue(j.b.ring), K.Queue(j'.b.ring);
       match e
       case Press(ch) =>
         && j'.b.returned == j.b.returned
         && queue' == if |queue| == 499 then queue else queue + [ch]
       case ReadCall =>
         if queue == [] then
           && j'.b.returned == j.b.returned && queue' == queue
           && j'.k.procs[j.k.current].call.InReadKey? && j'.k.procs[j.k.current].state == Sleep
         else
           && j'.b.returned == j.b.returned + [queue[0]] && queue' == queue[1..] && j'.k == j.k
       case Other(event) =>
         if event.Resume? && Current(j.k).call.InReadKey? then
           && j.k.current in j.b.readers && j.b.readers[j.k.current].captured < K.SIZE
           && j'.b.returned == j.b.returned + [j.b.ring.buffer[j.b.readers[j.k.current].captured]]
           && (queue != [] ==> queue' == queue[1..])
           && j'.k.procs[j.k.current].call.User? && j'.k.current == j.k.current
         else
           j'.b == j.b
  }

  lemma StepOutcome(j: Joint, e: Input)
    requires Coupled(j) && CanStep(j, e)
    ensures Slots(Next(j, e).k) && KeyOutcome(j, e, Next(j, e))
  {
    NextCoupled(j, e);
    match e
    case Press(ch) => PressOutcome(j, ch);
    case ReadCall => ReadOutcome(j);
    case Other(event) => OtherOutcome(j, event);
  }

  lemma RingFacts(b: K.Board)
    requires K.Tracks(b)
    ensures K.Ok(b.ring) && (K.Queue(b.ring) == [] <==> K.Empty(b.ring)) && |K.Queue(b.ring)| == K.Count(b.ring)
  {
  }

  lemma PressOutcome(j: Joint, ch: char)
    requires Coupled(j) && CanStep(j, Press(ch)) && Slots(Next(j, Press(ch)).k)
    ensures KeyOutcome(j, Press(ch), Next(j, Press(ch)))
  {
    hide I.Inv, Match, DeadAway, K.Tracks, WakeUp, K.Queue;
    OneEvent(j.b, K.Press(ch));
    RingFacts(j.b);
    K.WriteAppends(j.b.ring, ch);
  }

  lemma ReadOutcome(j: Joint)
    requires Coupled(j) && CanStep(j, ReadCall) && Coupled(Next(j, ReadCall)) && Slots(Next(j, ReadCall).k)
    ensures KeyOutcome(j, ReadCall, Next(j, ReadCall))
  {
    hide I.Core, I.Sleepers, K.Tracks, SleepOn, K.Queue;
    var i := j.k.current;
    RingFacts(j.b);
    K.BeginIs(j.b, i);
    OneEvent(j.b, K.Begin(i));
    if K.Empty(j.b.ring) {
      SleepsInRead(j.k);
    } else {
      TwoEvents(j.b, K.Begin(i), K.Finish(i));
      K.FinishIs(K.Step(j.b, K.Begin(i)), i);
      K.TakeIsHead(j.b.ring);
    }
  }

  lemma SleepsInRead(k: Kernel)
    requires I.Inv(k) && Slots(k) && DeadAway(k) && k.current != 0 && Current(k).call.User?
    ensures var k' := SleepOn(k, WAIT_KEY, InReadKey);
            Slots(k') && k'.procs[k.current].call.InReadKey? && k'.procs[k.current].state == Sleep
  {
    hide SleepOn, I.Inv;
    BeginPhases(k);
  }

  lemma OtherOutcome(j: Joint, e: Event)
    requires Coupled(j) && CanStep(j, Other(e)) && Slots(Next(j, Other(e)).k)
    ensures KeyOutcome(j, Other(e), Next(j, Other(e)))
  {
    hide I.Inv, K.Tracks, Step, K.Queue;
    RingFacts(j.b);
    NoEvents(j.b);
    if e.Resume? && Current(j.k).call.InReadKey? {
      RunningReader(j);
      OneEvent(j.b, K.Finish(j.k.current));
      K.FinishIs(j.b, j.k.current);
      ResumeIs(j.k);
      if K.Queue(j.b.ring) != [] {
        K.TakeIsHead(j.b.ring);
      }
    }
  }

  /** How many reads of a run return. */
  ghost function Completed(j: Joint, run: seq<Input>): nat
    requires Coupled(j) && RunOk(j, run)
    decreases |run|
  {
    if run == [] then 0 else
    NextCoupled(j, run[0]);
    (if Completes(j, run[0]) then 1 else 0) + Completed(Next(j, run[0]), run[1..])
  }

  lemma OneCharacter(j: Joint, e: Input)
    requires Coupled(j) && CanStep(j, e)
    ensures |Next(j, e).b.returned| == |j.b.returned| + if Completes(j, e) then 1 else 0
  {
    hide Coupled, CanStep, Next, K.Queue;
    StepOutcome(j, e);
  }

  /** Each read that returns, and nothing else, returns one character. */
  lemma {:induction false} ReadsReturn(j: Joint, run: seq<Input>)
    requires Coupled(j) && RunOk(j, run)
    ensures |Run(j, run).b.returned| == |j.b.returned| + Completed(j, run)
    decreases |run|
  {
    if run != [] {
      hide Coupled, CanStep, Next, Completes;
      NextCoupled(j, run[0]);
      OneCharacter(j, run[0]);
      ReadsReturn(Next(j, run[0]), run[1..]);
    }
  }

  /** The events of the ring in a run. */
  ghost function RunEvents(j: Joint, run: seq<Input>): seq<K.Event>
    requires Coupled(j) && RunOk(j, run)
    decreases |run|
  {
    if run == [] then [] else
    NextCoupled(j, run[0]);
    BoardEvents(j, run[0]) + RunEvents(Next(j, run[0]), run[1..])
  }

  lemma {:induction false} Concat(b: K.Board, first: seq<K.Event>, rest: seq<K.Event>)
    requires K.Tracks(b) && K.RunOk(b, first) && K.Tracks(K.Run(b, first)) && K.RunOk(K.Run(b, first), rest)
    ensures K.RunOk(b, first + rest) && K.Run(b, first + rest) == K.Run(K.Run(b, first), rest)
    decreases |first|
  {
    hide K.Tracks, K.Step;
    if first == [] {
      assert first + rest == rest;
    } else {
      K.StepTracks(b, first[0]);
      assert (first + rest)[1..] == first[1..] + rest;
      Concat(K.Step(b, first[0]), first[1..], rest);
    }
  }

  /** A run of both is a run of the ring, whose laws therefore apply. */
  lemma {:induction false} RunProjects(j: Joint, run: seq<Input>)
    requires Coupled(j) && RunOk(j, run)
    ensures Coupled(Run(j, run)) && K.Tracks(j.b)
    ensures K.RunOk(j.b, RunEvents(j, run)) && K.Run(j.b, RunEvents(j, run)) == Run(j, run).b
    decreases |run|
  {
    hide I.Inv, Match, DeadAway, K.Tracks, K.Run, K.RunOk, CanStep, BoardEvents, KernelEvent;
    if run == [] {
      NoEvents(j.b);
    } else {
      NextCoupled(j, run[0]);
      BoardReady(j, run[0]);
      RunProjects(Next(j, run[0]), run[1..]);
      Concat(j.b, BoardEvents(j, run[0]), RunEvents(Next(j, run[0]), run[1..]));
    }
  }

  /** A read starts only when no process is inside one. */
  ghost predicate OneReading(j: Joint, run: seq<Input>)
    requires Coupled(j) && RunOk(j, run)
    decreases |run|
  {
    run == [] ||
    (&& (run[0].ReadCall? ==> forall i :: 0 <= i < NUM_PROC ==> !j.k.procs[i].call.InReadKey?)
     && (NextCoupled(j, run[0]); OneReading(Next(j, run[0]), run[1..])))
  }

  lemma NobodyReads(j: Joint)
    requires Coupled(j) && forall i :: 0 <= i < NUM_PROC ==> !j.k.procs[i].call.InReadKey?
    ensures j.b.readers == map[]
  {
    hide I.Inv, K.Tracks;
    assert forall p :: p !in j.b.readers;
  }

  /** One step of such a run keeps the lone reader lone, and its reads in order. */
  lemma LoneNext(j: Joint, e: Input)
    requires Coupled(j) && CanStep(j, e) && K.Lone(j.b) && K.Clean(j.b) && K.InOrder(j.b)
    requires e.ReadCall? ==> forall i :: 0 <= i < NUM_PROC ==> !j.k.procs[i].call.InReadKey?
    ensures var b' := Next(j, e).b; K.Lone(b') && K.Clean(b') && K.InOrder(b')
  {
    BoardReady(j, e);
    if e.ReadCall? {
      NobodyReads(j);
    }
    hide I.Inv, Match, DeadAway, K.Tracks, K.Lone, K.Clean, K.InOrder;
    var events := BoardEvents(j, e);
    assert K.OneAtATime(j.b, events) by {
      OnceAtMost(j, e);
    }
    K.LoneReader(j.b, events);
    K.InOrderIffProper(j.b, events);
    K.AllProperIff(j.b, events);
  }

  lemma OnceAtMost(j: Joint, e: Input)
    requires Coupled(j) && CanStep(j, e) && (e.ReadCall? ==> j.b.readers == map[]) && K.RunOk(j.b, BoardEvents(j, e))
    ensures K.OneAtATime(j.b, BoardEvents(j, e))
  {
    hide I.Inv, Match, DeadAway, K.Tracks, K.Step, CanStep, KernelEvent;
    var events := BoardEvents(j, e);
    if |events| > 0 {
      K.StepTracks(j.b, events[0]);
      if |events| > 1 {
        K.StepTracks(K.Step(j.b, events[0]), events[1..][0]);
        var b1, rest := K.Step(j.b, events[0]), events[1..];
        assert rest == [K.Finish(j.k.current)] && rest[1..] == [];
        assert K.OneAtATime(b1, rest);
      } else {
        assert events[1..] == [];
      }
    }
  }

  /**
   Where a process stands in its read, when reads do not overlap: asleep on an empty ring, or woken to
   a character.
   */
  ghost predicate ReadersWait(t: Joint)
    requires Slots(t.k) && K.Ok(t.b.ring)
  {
    forall i :: 0 <= i < NUM_PROC && t.k.procs[i].call.InReadKey? ==>
      && i in t.b.readers && t.b.readers[i].captured == t.b.ring.front
      && (t.k.procs[i].state == Sleep <==> K.Queue(t.b.ring) == [])
  }

  /**
   In every state of a run in which no read starts while a process is inside one: the reads have
   returned the accepted characters in order, without a loss; a process asleep in the read means an
   empty ring, and a woken one holds the read index of a character.
   */
  lemma {:induction false} OneReaderInOrder(j: Joint, run: seq<Input>)
    requires Coupled(j) && RunOk(j, run) && OneReading(j, run) && K.Lone(j.b) && K.Clean(j.b) && K.InOrder(j.b)
    ensures var t := Run(j, run);
            && Slots(t.k) && K.Ok(t.b.ring) && K.InOrder(t.b)
            && t.b.returned + K.Queue(t.b.ring) == t.b.accepted
            && ReadersWait(t)
    decreases |run|
  {
    if run == [] {
      hide I.Inv, K.Queue;
      K.NothingLost(j.b);
      forall i | 0 <= i < NUM_PROC && j.k.procs[i].call.InReadKey?
        ensures i in j.b.readers && j.b.readers[i].captured == j.b.ring.front
            && (j.k.procs[i].state == Sleep <==> K.Queue(j.b.ring) == []) {
        assert i in j.b.readers;
        K.LoneReaderWaits(j.b, i);
      }
    } else {
      hide Coupled, CanStep, Next, K.Lone, K.Clean, K.InOrder, ReadersWait;
      NextCoupled(j, run[0]);
      LoneNext(j, run[0]);
      OneReaderInOrder(Next(j, run[0]), run[1..]);
    }
  }

  /** A kernel in which no process is in a blocking call, with the ring empty as at the start. */
  lemma StartCoupled(k: Kernel)
    requires I.Inv(k) && Slots(k) && forall i :: 0 <= i < NUM_PROC ==> k.procs[i].call.User?
    ensures var j := Joint(k, K.Start()); Coupled(j) && K.Lone(j.b) && K.Clean(j.b) && K.InOrder(j.b)
  {
    K.StartTracks();
  }

  /**
   With any number of reading processes, the reads of a run return the characters in order if and only
   if each of them is proper.
   */
  lemma ReadsInOrderIff(j: Joint, run: seq<Input>)
    requires Coupled(j) && RunOk(j, run) && K.Clean(j.b) && K.InOrder(j.b)
    ensures K.Tracks(j.b) && K.RunOk(j.b, RunEvents(j, run))
    ensures K.InOrder(Run(j, run).b) <==> K.AllProper(j.b, RunEvents(j, run))
  {
    hide Coupled, RunOk, Run, RunEvents, K.Tracks, K.RunOk, K.Run, K.AllProper, K.InOrder, K.Clean;
    RunProjects(j, run);
    K.InOrderIffProper(j.b, RunEvents(j, run));
  }
}
