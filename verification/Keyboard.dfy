/**
 The key buffer of keyboard.c: a ring of 500 characters, written by the interrupt handler, read by a
 call that may sleep.
 */
module Keyboard {
  const SIZE: nat := 500

  type Buffer = b: seq<char> | |b| == SIZE witness seq(SIZE, _ => ' ')

  /** The ring as the code sees it. */
  datatype Ring = Ring(buffer: Buffer, front: nat, end: nat)

  predicate Ok(r: Ring) { r.front < SIZE && r.end < SIZE }

  function Count(r: Ring): nat
    requires Ok(r)
  {
    if r.front <= r.end then r.end - r.front else r.end + SIZE - r.front
  }

  function Wrap(i: nat): nat
    requires i < 2 * SIZE
  {
    if i < SIZE then i else i - SIZE
  }

  lemma WrapIsMod(i: nat)
    requires i < 2 * SIZE
    ensures Wrap(i) == i % SIZE
  {
  }

  /** The characters waiting, oldest first. */
  function Queue(r: Ring): (q: seq<char>)
    requires Ok(r)
    ensures |q| == Count(r) < SIZE
  {
    seq(Count(r), k requires 0 <= k < Count(r) => At(r, k))
  }

  /** The k-th character waiting. */
  function At(r: Ring, k: nat): char
    requires Ok(r) && k < SIZE
  {
    r.buffer[Wrap(r.front + k)]
  }

  /** write_key_buffer. */
  function Write(r: Ring, ch: char): Ring
    requires Ok(r)
  {
    if (r.end + 1) % SIZE == r.front then r else Ring(r.buffer[r.end := ch], r.front, (r.end + 1) % SIZE)
  }

  /** The end of read_key_buffer, with the read index it captured at its start. */
  function Take(r: Ring, captured: nat): (char, Ring)
    requires Ok(r) && captured < SIZE
  {
    (r.buffer[captured], r.(front := (r.front + 1) % SIZE))
  }

  /** A character is appended, unless 499 are waiting. */
  lemma WriteAppends(r: Ring, ch: char)
    requires Ok(r)
    ensures Ok(Write(r, ch)) && Queue(Write(r, ch)) == if Count(r) == SIZE - 1 then Queue(r) else Queue(r) + [ch]
  {
    WrapIsMod(r.end + 1);
    var r' := Write(r, ch);
    if Count(r) < SIZE - 1 {
      assert Count(r') == Count(r) + 1;
      assert Wrap(r.front + Count(r)) == r.end;
      forall k | 0 <= k < Count(r') ensures At(r', k) == if k < Count(r) then At(r, k) else ch {
      }
      assert Queue(r') == Queue(r) + [ch];
    }
  }

  /** Taking with the current read index gives the oldest character and removes it. */
  lemma TakeIsHead(r: Ring)
    requires Ok(r) && Count(r) > 0
    ensures var (ch, r') := Take(r, r.front); Ok(r') && ch == Queue(r)[0] && Queue(r') == Queue(r)[1..]
  {
    WrapIsMod(r.front + 1);
    var r' := Take(r, r.front).1;
    assert Queue(r)[0] == At(r, 0);
    forall k | 0 <= k < Count(r') ensures At(r', k) == At(r, k + 1) {
    }
    assert Queue(r') == Queue(r)[1..];
  }

  // Several readers

  /**
   A call of read_key_buffer that has not returned: the read index it captured, how many reads had
   returned by then, and whether it sleeps.
   */
  datatype Reader = Reader(captured: nat, mark: nat, asleep: bool)

  /**
   The ring with its history: the characters it accepted, those returned by reads and the number of
   each among the accepted ones (-1 for a cell never written), and the reads under way.
   */
  datatype Board = Board(ring: Ring, accepted: seq<char>, returned: seq<char>, items: seq<int>,
      readers: map<nat, Reader>)

  /** A key interrupt; the start of a read, up to its sleep if the ring is empty; the rest of a read. */
  datatype Event = Press(ch: char) | Begin(p: nat) | Finish(p: nat)

  predicate Empty(r: Ring) { r.front == r.end }

  function Start(): Board { Board(Ring(seq(SIZE, _ => ' '), 0, 0), [], [], [], map[]) }

  /** The number of the last accepted character stored in cell c, when n have been accepted. */
  function ItemAt(n: nat, c: nat): (k: int)
    ensures -1 <= k < n && (k >= 0 ==> k % SIZE == c)
  {
    if n == 0 then -1 else if (n - 1) % SIZE == c then n - 1 else ItemAt(n - 1, c)
  }

  function WakeReaders(readers: map<nat, Reader>): map<nat, Reader> {
    map p | p in readers :: readers[p].(asleep := false)
  }

  predicate Enabled(b: Board, e: Event) {
    match e
    case Press(_) => true
    case Begin(p) => p !in b.readers
    case Finish(p) => p in b.readers && !b.readers[p].asleep
  }

  /** keyboard_handler wakes every reader; a read that finds the ring empty sleeps. */
  function Step(b: Board, e: Event): Board
    requires Tracks(b) && Enabled(b, e)
  {
    match e
    case Press(ch) =>
      b.(ring := Write(b.ring, ch), readers := WakeReaders(b.readers),
         accepted := if (b.ring.end + 1) % SIZE == b.ring.front then b.accepted else b.accepted + [ch])
    case Begin(p) => b.(readers := b.readers[p := Reader(b.ring.front, |b.returned|, Empty(b.ring))])
    case Finish(p) =>
      var captured := b.readers[p].captured;
      var (ch, ring) := Take(b.ring, captured);
      b.(ring := ring, returned := b.returned + [ch], items := b.items + [ItemAt(|b.accepted|, captured)],
          readers := b.readers - {p})
  }

  /**
   The read index counts the reads, the write index the accepted characters, each cell holds the last
   one put there.
   */
  ghost predicate Indices(b: Board) {
    && Ok(b.ring) && |b.items| == |b.returned|
    && b.ring.front == |b.returned| % SIZE && b.ring.end == |b.accepted| % SIZE
    && forall c :: 0 <= c < SIZE && ItemAt(|b.accepted|, c) >= 0 ==>
        b.ring.buffer[c] == b.accepted[ItemAt(|b.accepted|, c)]
  }

  /** What was returned is the accepted character of that number. */
  ghost predicate Items(b: Board) {
    && |b.items| == |b.returned|
    && forall i :: 0 <= i < |b.items| && b.items[i] >= 0 ==>
         b.items[i] < |b.accepted| && b.returned[i] == b.accepted[b.items[i]]
  }

  /** While no read returned since a reader captured the index, the reader sleeps exactly if the ring is empty. */
  ghost predicate Readers(b: Board) {
    forall p :: p in b.readers ==>
      && b.readers[p].mark <= |b.returned| && b.readers[p].captured == b.readers[p].mark % SIZE
      && (b.readers[p].mark == |b.returned| ==> (b.readers[p].asleep <==> Empty(b.ring)))
  }

  /** What holds whatever the readers do. */
  ghost predicate Tracks(b: Board) { Indices(b) && Items(b) && Readers(b) }

  /** No more was returned than accepted, and no accepted character was overwritten. */
  ghost predicate Clean(b: Board) { |b.returned| <= |b.accepted| < |b.returned| + SIZE }

  /** The n-th read returned the n-th accepted character. */
  ghost predicate InOrder(b: Board) { forall i :: 0 <= i < |b.items| ==> b.items[i] == i }

  lemma StartTracks()
    ensures Tracks(Start()) && Clean(Start()) && InOrder(Start())
  {
  }

  lemma StepTracks(b: Board, e: Event)
    requires Tracks(b) && Enabled(b, e)
    ensures Tracks(Step(b, e)) && b.items <= Step(b, e).items
  {
    match e
    case Press(ch) => PressTracks(b, ch);
    case Begin(_) =>
    case Finish(p) => FinishTracks(b, p);
  }

  lemma PressTracks(b: Board, ch: char)
    requires Tracks(b)
    ensures Tracks(Step(b, Press(ch)))
  {
    hide Items;
    ModNext(|b.accepted|);
    assert Items(Step(b, Press(ch))) by {
      PressItems(b, ch);
    }
  }

  lemma PressItems(b: Board, ch: char)
    requires Tracks(b)
    ensures Items(Step(b, Press(ch)))
  {
  }

  lemma FinishTracks(b: Board, p: nat)
    requires Tracks(b) && Enabled(b, Finish(p))
    ensures Tracks(Step(b, Finish(p))) && b.items <= Step(b, Finish(p)).items
  {
    ModNext(|b.returned|);
  }

  /** A key when fewer than 499 characters wait. */
  lemma PressIs(b: Board, ch: char)
    requires Tracks(b) && (b.ring.end + 1) % SIZE != b.ring.front
    ensures b.ring.end < SIZE
    ensures Step(b, Press(ch)) ==
      Board(Ring(b.ring.buffer[b.ring.end := ch], b.ring.front, (b.ring.end + 1) % SIZE), b.accepted + [ch], b.returned,
          b.items,
            WakeReaders(b.readers))
  {
  }

  lemma BeginIs(b: Board, p: nat)
    requires Tracks(b) && Enabled(b, Begin(p))
    ensures Step(b, Begin(p)) == b.(readers := b.readers[p := Reader(b.ring.front, |b.returned|, Empty(b.ring))])
  {
  }

  lemma FinishIs(b: Board, p: nat)
    requires Tracks(b) && Enabled(b, Finish(p))
    ensures var b', captured := Step(b, Finish(p)), b.readers[p].captured;
            && Tracks(b') && captured < SIZE && b'.ring == b.ring.(front := (b.ring.front + 1) % SIZE)
            && b'.returned == b.returned + [b.ring.buffer[captured]] && b'.accepted == b.accepted
            && b'.readers == b.readers - {p}
  {
    StepTracks(b, Finish(p));
  }

  lemma ModNext(n: nat)
    ensures (n + 1) % SIZE == if n % SIZE + 1 == SIZE then 0 else n % SIZE + 1
  {
  }

  /** Fewer than a whole ring apart, two numbers fall on one cell only if they are the same. */
  lemma SameCell(i: nat, n: nat)
    requires i <= n < i + SIZE
    ensures i % SIZE == n % SIZE <==> i == n
  {
  }

  lemma {:induction false} ItemIs(n: nat, i: nat)
    requires i < n <= i + SIZE
    ensures ItemAt(n, i % SIZE) == i
  {
    SameCell(i, n - 1);
    if i < n - 1 {
      ItemIs(n - 1, i);
    }
  }

  /**
   The read returns the next character: it holds the current index, up to whole rounds of the ring, and
   a character is there.
   */
  ghost predicate Proper(b: Board, e: Event)
    requires Tracks(b) && Enabled(b, e)
  {
    e.Finish? ==> (|b.returned| - b.readers[e.p].mark) % SIZE == 0 && |b.returned| < |b.accepted|
  }

  lemma MarkMod(mark: nat, n: nat)
    requires mark <= n
    ensures (n - mark) % SIZE == 0 <==> mark % SIZE == n % SIZE
  {
    assert n - mark == SIZE * (n / SIZE - mark / SIZE) + (n % SIZE - mark % SIZE);
  }

  lemma OrderStep(b: Board, e: Event)
    requires Tracks(b) && Clean(b) && InOrder(b) && Enabled(b, e)
    ensures InOrder(Step(b, e)) <==> Proper(b, e)
    ensures Proper(b, e) ==> Clean(Step(b, e))
  {
    if e.Finish? {
      FinishOrder(b, e.p);
    } else {
      AcceptedFits(|b.returned|, |b.accepted|);
    }
  }

  /** The write index plus one meets the read index only when 499 characters wait. */
  lemma AcceptedFits(n: nat, accepted: nat)
    requires n <= accepted < n + SIZE
    ensures (accepted % SIZE + 1) % SIZE == n % SIZE <==> accepted == n + SIZE - 1
  {
  }

  lemma FinishOrder(b: Board, p: nat)
    requires Tracks(b) && Clean(b) && InOrder(b) && Enabled(b, Finish(p))
    ensures InOrder(Step(b, Finish(p))) <==> Proper(b, Finish(p))
    ensures Proper(b, Finish(p)) ==> Clean(Step(b, Finish(p)))
  {
    hide Items, Take;
    var n, mark := |b.returned|, b.readers[p].mark;
    MarkMod(mark, n);
    var item := ItemAt(|b.accepted|, b.readers[p].captured);
    var b' := Step(b, Finish(p));
    assert b'.items == b.items + [item] && |b.items| == n;
    assert item == n ==> n % SIZE == mark % SIZE && n < |b.accepted|;
    if n < |b.accepted| {
      ItemIs(|b.accepted|, n);
    }
    assert InOrder(b') <==> item == n by {
      assert b'.items[n] == item;
    }
  }

  // Runs

  ghost predicate RunOk(b: Board, run: seq<Event>)
    requires Tracks(b)
    decreases |run|
  {
    run == [] || (Enabled(b, run[0]) && (StepTracks(b, run[0]); RunOk(Step(b, run[0]), run[1..])))
  }

  ghost function Run(b: Board, run: seq<Event>): Board
    requires Tracks(b) && RunOk(b, run)
    decreases |run|
  {
    if run == [] then b else
    StepTracks(b, run[0]);
    Run(Step(b, run[0]), run[1..])
  }

  /** Every read of the run is proper. */
  ghost predicate AllProper(b: Board, run: seq<Event>)
    requires Tracks(b) && RunOk(b, run)
    decreases |run|
  {
    run == [] || (Proper(b, run[0]) && (StepTracks(b, run[0]); AllProper(Step(b, run[0]), run[1..])))
  }

  lemma {:induction false} RunTracks(b: Board, run: seq<Event>)
    requires Tracks(b) && RunOk(b, run)
    ensures Tracks(Run(b, run)) && b.items <= Run(b, run).items
    decreases |run|
  {
    if run != [] {
      hide Tracks, Step;
      StepTracks(b, run[0]);
      RunTracks(Step(b, run[0]), run[1..]);
    }
  }

  /**
   Over any run, with any number of readers, the reads return the accepted characters in order if and
   only if every read is proper.
   */
  lemma {:induction false} InOrderIffProper(b: Board, run: seq<Event>)
    requires Tracks(b) && Clean(b) && InOrder(b) && RunOk(b, run)
    ensures InOrder(Run(b, run)) <==> AllProper(b, run)
    ensures AllProper(b, run) ==> Clean(Run(b, run))
    decreases |run|
  {
    if run != [] {
      hide Tracks, Step, Clean, Proper;
      StepTracks(b, run[0]);
      OrderStep(b, run[0]);
      var b1 := Step(b, run[0]);
      if Proper(b, run[0]) {
        InOrderIffProper(b1, run[1..]);
      } else {
        RunTracks(b1, run[1..]);
        OutOfOrderStays(b1, Run(b1, run[1..]));
      }
    }
  }

  lemma OutOfOrderStays(b: Board, t: Board)
    requires b.items <= t.items && !InOrder(b)
    ensures !InOrder(t)
  {
    var i :| 0 <= i < |b.items| && b.items[i] != i;
    assert t.items[i] == b.items[i];
  }

  /** Nothing is lost, doubled or reordered: what was returned, followed by what waits, is what was accepted. */
  lemma NothingLost(b: Board)
    requires Tracks(b) && Clean(b) && InOrder(b)
    ensures b.returned + Queue(b.ring) == b.accepted
  {
    var n, r := |b.returned|, b.ring;
    assert b.returned == b.accepted[..n];
    CountIs(n, |b.accepted|);
    assert Count(r) == |b.accepted| - n;
    forall k | 0 <= k < Count(r) ensures Queue(r)[k] == b.accepted[n + k] {
      ItemIs(|b.accepted|, n + k);
      WrapSum(n, k);
    }
    assert Queue(r) == b.accepted[n..];
  }

  lemma CountIs(i: nat, n: nat)
    requires i <= n < i + SIZE
    ensures n - i == if i % SIZE <= n % SIZE then n % SIZE - i % SIZE else n % SIZE + SIZE - i % SIZE
  {
  }

  lemma WrapSum(n: nat, k: nat)
    requires k < SIZE
    ensures Wrap(n % SIZE + k) == (n + k) % SIZE
  {
  }

  /** Fewer than 500 reads return while a read is under way. */
  ghost predicate FewReturns(b: Board, run: seq<Event>)
    requires Tracks(b) && RunOk(b, run)
    decreases |run|
  {
    run == [] ||
    (&& (run[0].Finish? ==> |b.returned| - b.readers[run[0].p].mark < SIZE)
     && (StepTracks(b, run[0]); FewReturns(Step(b, run[0]), run[1..])))
  }

  /** No read returns while another one is under way. */
  ghost predicate NoneOvertakes(b: Board, run: seq<Event>)
    requires Tracks(b) && RunOk(b, run)
    decreases |run|
  {
    run == [] ||
    (&& (run[0].Finish? ==> b.readers[run[0].p].mark == |b.returned|)
     && (StepTracks(b, run[0]); NoneOvertakes(Step(b, run[0]), run[1..])))
  }

  /** A read is proper if and only if no other read returned since it captured the index. */
  lemma ProperIff(b: Board, e: Event)
    requires Tracks(b) && Clean(b) && Enabled(b, e) && (e.Finish? ==> |b.returned| - b.readers[e.p].mark < SIZE)
    ensures Proper(b, e) <==> (e.Finish? ==> b.readers[e.p].mark == |b.returned|)
  {
    if e.Finish? {
      SameCell(|b.returned|, |b.accepted|);
    }
  }

  lemma {:induction false} AllProperIff(b: Board, run: seq<Event>)
    requires Tracks(b) && Clean(b) && InOrder(b) && RunOk(b, run) && FewReturns(b, run)
    ensures AllProper(b, run) <==> NoneOvertakes(b, run)
    decreases |run|
  {
    if run != [] {
      hide Tracks, Step, Clean, Proper, InOrder;
      StepTracks(b, run[0]);
      OrderStep(b, run[0]);
      ProperIff(b, run[0]);
      if Proper(b, run[0]) {
        AllProperIff(Step(b, run[0]), run[1..]);
      }
    }
  }

  /**
   From the start, with any number of readers: the n-th read returns the n-th accepted character, for
   all reads of the run, if and only if no read returns while another one is under way.
   */
  lemma InOrderIffNoneOvertakes(run: seq<Event>)
    requires Tracks(Start()) && RunOk(Start(), run) && FewReturns(Start(), run)
    ensures InOrder(Run(Start(), run)) <==> NoneOvertakes(Start(), run)
    ensures NoneOvertakes(Start(), run) ==>
      Ok(Run(Start(), run).ring)
          && Run(Start(), run).returned + Queue(Run(Start(), run).ring) == Run(Start(), run).accepted
  {
    hide Tracks, RunOk, Run, InOrder, Queue;
    StartTracks();
    InOrderIffProper(Start(), run);
    AllProperIff(Start(), run);
    RunTracks(Start(), run);
    if NoneOvertakes(Start(), run) {
      NothingLost(Run(Start(), run));
      RingOk(Run(Start(), run));
    }
  }

  lemma RingOk(b: Board)
    requires Tracks(b)
    ensures Ok(b.ring)
  {
  }

  /** Two readers asleep: the key that wakes them goes to both, and then 499 stale characters seem to wait. */
  lemma TwoReadersShareAKey(b: Board, ch: char)
    requires Tracks(b) && Empty(b.ring) && b.readers == map[]
    ensures var run := [Begin(1), Begin(2), Press(ch), Finish(1), Finish(2)];
            && RunOk(b, run)
            && var t := Run(b, run);
               && t.accepted == b.accepted + [ch] && t.returned == b.returned + [ch, ch]
               && Ok(t.ring) && Count(t.ring) == SIZE - 1
  {
    hide Tracks, RunOk, Run, Step;
    RingOk(b);
    ModNext(b.ring.end);
    var run := [Begin(1), Begin(2), Press(ch), Finish(1), Finish(2)];
    BeginIs(b, 1);
    var b1 := OneStep(b, run);
    BeginIs(b1, 2);
    var b2 := OneStep(b1, run[1..]);
    PressIs(b2, ch);
    var b3 := OneStep(b2, run[1..][1..]);
    FinishIs(b3, 1);
    var b4 := OneStep(b3, run[1..][1..][1..]);
    FinishIs(b4, 2);
    var b5 := OneStep(b4, run[1..][1..][1..][1..]);
    ModNext(b4.ring.front);
    RunNone(b5);
    assert run[1..][1..][1..][1..][1..] == [];
  }

  /**
   Two keys before a woken reader runs, and a new read first: both reads return the first key, and the
   second one is lost, for the buffer is empty again.
   */
  lemma OvertakenReaderLosesAKey(b: Board, ch: char, next: char)
    requires Tracks(b) && Empty(b.ring) && b.readers == map[]
    ensures var run := [Begin(1), Press(ch), Press(next), Begin(2), Finish(2), Finish(1)];
            && RunOk(b, run)
            && var t := Run(b, run);
               && t.accepted == b.accepted + [ch, next] && t.returned == b.returned + [ch, ch] && Empty(t.ring)
  {
    hide Tracks, RunOk, Run, Step;
    var run := [Begin(1), Press(ch), Press(next), Begin(2), Finish(2), Finish(1)];
    var rest := [Begin(2), Finish(2), Finish(1)];
    assert run[3..] == rest;
    var b3 := TwoKeysWhileAsleep(b, ch, next, run);
    BeginIs(b3, 2);
    var b4 := OneStep(b3, rest);
    FinishIs(b4, 2);
    var b5 := OneStep(b4, rest[1..]);
    FinishIs(b5, 1);
    var b6 := OneStep(b5, rest[1..][1..]);
    RunNone(b6);
    assert rest[1..][1..][1..] == [];
  }

  /** A reader falls asleep, and two keys come before it runs. */
  lemma TwoKeysWhileAsleep(b: Board, ch: char, next: char, run: seq<Event>) returns (b3: Board)
    requires Tracks(b) && Empty(b.ring) && b.readers == map[]
    requires |run| >= 3 && run[..3] == [Begin(1), Press(ch), Press(next)]
    ensures Tracks(b3) && b.ring.front < SIZE && b3.ring.buffer[b.ring.front] == ch
    ensures b3.ring.front == b.ring.front && b3.ring.end == ((b.ring.front + 1) % SIZE + 1) % SIZE
    ensures b3.accepted == b.accepted + [ch, next] && b3.returned == b.returned
    ensures b3.readers == map[1 := Reader(b.ring.front, |b.returned|, false)]
    ensures RunOk(b, run) <==> RunOk(b3, run[3..])
    ensures RunOk(b3, run[3..]) ==> Run(b, run) == Run(b3, run[3..])
  {
    hide Tracks, RunOk, Run, Step;
    RingOk(b);
    ModNext(b.ring.end);
    ModNext((b.ring.end + 1) % SIZE);
    assert run[0] == run[..3][0] && run[1] == run[..3][1] && run[2] == run[..3][2];
    BeginIs(b, 1);
    var b1 := OneStep(b, run);
    PressIs(b1, ch);
    var b2 := OneStep(b1, run[1..]);
    PressIs(b2, next);
    b3 := OneStep(b2, run[1..][1..]);
    assert run[1..][1..][1..] == run[3..];
  }

  lemma RunNone(b: Board)
    requires Tracks(b)
    ensures RunOk(b, []) && Run(b, []) == b
  {
  }

  /** The first step of a run. */
  lemma OneStep(b: Board, run: seq<Event>) returns (b': Board)
    requires Tracks(b) && run != [] && Enabled(b, run[0])
    ensures Tracks(b') && b' == Step(b, run[0])
    ensures RunOk(b, run) <==> RunOk(b', run[1..])
    ensures RunOk(b', run[1..]) ==> Run(b, run) == Run(b', run[1..])
  {
    b' := Step(b, run[0]);
    StepTracks(b, run[0]);
  }

  // One reader at a time

  /** A read begins only when none is under way. */
  ghost predicate OneAtATime(b: Board, run: seq<Event>)
    requires Tracks(b) && RunOk(b, run)
    decreases |run|
  {
    run == [] ||
    (&& (run[0].Begin? ==> b.readers == map[])
     && (StepTracks(b, run[0]); OneAtATime(Step(b, run[0]), run[1..])))
  }

  /** At most one read is under way, and none returned since it captured the index. */
  ghost predicate Lone(b: Board) {
    forall p :: p in b.readers ==> b.readers.Keys == {p} && b.readers[p].mark == |b.returned|
  }

  lemma LoneStep(b: Board, e: Event)
    requires Tracks(b) && Lone(b) && Enabled(b, e) && (e.Begin? ==> b.readers == map[])
    ensures Lone(Step(b, e))
  {
  }

  /** With one reader at a time no read overtakes another. */
  lemma {:induction false} LoneReader(b: Board, run: seq<Event>)
    requires Tracks(b) && Lone(b) && RunOk(b, run) && OneAtATime(b, run)
    ensures Lone(Run(b, run)) && FewReturns(b, run) && NoneOvertakes(b, run)
    decreases |run|
  {
    if run != [] {
      hide Tracks, Step;
      StepTracks(b, run[0]);
      LoneStep(b, run[0]);
      LoneReader(Step(b, run[0]), run[1..]);
    }
  }

  /**
   A lone reader holds the current read index, sleeps exactly while the ring is empty, and is woken to
   a character.
   */
  lemma LoneReaderWaits(b: Board, p: nat)
    requires Tracks(b) && Lone(b) && p in b.readers
    ensures b.readers[p].captured == b.ring.front && Ok(b.ring)
    ensures b.readers[p].asleep <==> Queue(b.ring) == []
  {
  }

  // The code

  class KeyBuffer {
    var buffer: array<char>
    var front: nat
    var end: nat
    ghost var board: Board

    ghost function State(): Ring
      requires buffer.Length == SIZE
      reads this, buffer
    {
      Ring(buffer[..], front, end)
    }

    /** The ring is that of the board. */
    ghost predicate Valid()
      reads this, buffer
    {
      buffer.Length == SIZE && State() == board.ring && Tracks(board)
    }

    constructor ()
      ensures Valid() && fresh(buffer) && board == Start()
    {
      buffer := new char[SIZE](_ => ' ');
      front, end, board := 0, 0, Start();
      new;
      StartTracks();
      assert buffer[..] == Start().ring.buffer;
    }

    method WriteKeyBuffer(ch: char)
      requires buffer.Length == SIZE && Ok(State())
      modifies `end, buffer
      ensures State() == Write(old(State()), ch)
    {
      if (end + 1) % SIZE == front {
        return;
      }
      buffer[end] := ch;
      end := (end + 1) % SIZE;
    }

    /** keyboard_handler: store the character, then wake the readers. */
    method KeyPressed(ch: char)
      requires Valid()
      modifies this, buffer
      ensures Valid() && buffer == old(buffer) && board == Step(old(board), Press(ch))
    {
      StepTracks(board, Press(ch));
      WriteKeyBuffer(ch);
      board := Step(board, Press(ch));
    }

    /** read_key_buffer of process p up to its sleep: the read index it will use, and whether it has to sleep. */
    method BeginRead(ghost p: nat) returns (captured: nat, sleeps: bool)
      requires Valid() && Enabled(board, Begin(p))
      modifies `board
      ensures Valid() && board == Step(old(board), Begin(p))
      ensures board.readers[p] == Reader(captured, |board.returned|, sleeps)
    {
      captured := front;
      sleeps := front == end;
      StepTracks(board, Begin(p));
      board := Step(board, Begin(p));
    }

    /** The rest of it. The character is the next one not returned yet if the read is proper. */
    method FinishRead(ghost p: nat, captured: nat) returns (ch: char)
      requires Valid() && Enabled(board, Finish(p)) && captured == board.readers[p].captured
      modifies this
      ensures Valid() && buffer == old(buffer) && board == Step(old(board), Finish(p))
          && board.returned == old(board).returned + [ch]
      ensures Clean(old(board)) && InOrder(old(board)) && Proper(old(board), Finish(p)) ==>
        |old(board).returned| < |board.accepted| && ch == board.accepted[|old(board).returned|]
    {
      hide Tracks, Step, Clean, InOrder, Proper;
      FinishIs(board, p);
      OrderIfProper(board, p);
      front := (front + 1) % SIZE;
      ch := buffer[captured];
      board := Step(board, Finish(p));
    }
  }

  lemma OrderIfProper(b: Board, p: nat)
    requires Tracks(b) && Enabled(b, Finish(p))
    ensures Clean(b) && InOrder(b) && Proper(b, Finish(p)) ==>
      && |b.returned| < |b.accepted| && b.readers[p].captured < SIZE
      && b.ring.buffer[b.readers[p].captured] == b.accepted[|b.returned|]
  {
    if Clean(b) && InOrder(b) && Proper(b, Finish(p)) {
      ItemIs(|b.accepted|, |b.returned|);
      MarkMod(b.readers[p].mark, |b.returned|);
    }
  }
}
