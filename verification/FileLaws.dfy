/** What every run of file calls keeps: reference counts, agreement with the directory, descriptors, positions. */
module FileLaws {
  import opened Words
  import opened Fat
  import opened Names
  import opened FileTables

  // Counting handles

  function SumRefers(files: seq<seq<int>>, descs: seq<FileDesc>, i: int): nat {
    if files == [] then 0 else Refers(files[0], descs, i) + SumRefers(files[1..], descs, i)
  }

  function One(descs: seq<FileDesc>, h: int, i: int): nat {
    if 0 <= h < |descs| && descs[h].fcb == i then 1 else 0
  }

  lemma {:induction false} RefersSet(row: seq<int>, fd: nat, h: int, descs: seq<FileDesc>, i: int)
    requires fd < |row|
    ensures Refers(row[fd := h], descs, i) + One(descs, row[fd], i) == Refers(row, descs, i) + One(descs, h, i)
  {
    if fd == 0 {
      assert row[0 := h][1..] == row[1..];
    } else {
      RefersSet(row[1..], fd - 1, h, descs, i);
      assert row[fd := h][1..] == row[1..][fd - 1 := h];
    }
  }

  lemma {:induction false} SumSet(files: seq<seq<int>>, p: nat, row: seq<int>, descs: seq<FileDesc>, i: int)
    requires p < |files|
    ensures SumRefers(files[p := row], descs, i) + Refers(files[p], descs, i) ==
      SumRefers(files, descs, i) + Refers(row, descs, i)
  {
    if p == 0 {
      assert files[0 := row][1..] == files[1..];
    } else {
      SumSet(files[1..], p - 1, row, descs, i);
      assert files[p := row][1..] == files[1..][p - 1 := row];
    }
  }

  /** The handles of the row point to descriptors that have the same FCB in both tables. */
  ghost predicate SameFcbs(row: seq<int>, descs: seq<FileDesc>, descs': seq<FileDesc>) {
    |descs'| == |descs| && forall fd :: 0 <= fd < |row| && 0 <= row[fd] < |descs| ==>
        descs'[row[fd]].fcb == descs[row[fd]].fcb
  }

  lemma {:induction false} RefersSame(row: seq<int>, descs: seq<FileDesc>, descs': seq<FileDesc>, i: int)
    requires SameFcbs(row, descs, descs')
    ensures Refers(row, descs', i) == Refers(row, descs, i)
  {
    if row != [] {
      RefersSame(row[1..], descs, descs', i);
    }
  }

  lemma {:induction false} SumSame(files: seq<seq<int>>, descs: seq<FileDesc>, descs': seq<FileDesc>, i: int)
    requires forall p :: 0 <= p < |files| ==> SameFcbs(files[p], descs, descs')
    ensures SumRefers(files, descs', i) == SumRefers(files, descs, i)
  {
    if files != [] {
      RefersSame(files[0], descs, descs', i);
      SumSame(files[1..], descs, descs', i);
    }
  }

  lemma {:induction false} NoneRefer(row: seq<int>, descs: seq<FileDesc>, i: int)
    requires forall fd :: 0 <= fd < |row| ==> row[fd] < 0
    ensures Refers(row, descs, i) == 0
  {
    if row != [] {
      NoneRefer(row[1..], descs, i);
    }
  }

  lemma {:induction false} HandleCounts(row: seq<int>, fd: nat, descs: seq<FileDesc>, i: int)
    requires fd < |row| && One(descs, row[fd], i) == 1
    ensures Refers(row, descs, i) >= 1
  {
    if fd > 0 {
      HandleCounts(row[1..], fd - 1, descs, i);
    }
  }

  lemma {:induction false} RowCounts(files: seq<seq<int>>, p: nat, descs: seq<FileDesc>, i: int)
    requires p < |files|
    ensures SumRefers(files, descs, i) >= Refers(files[p], descs, i)
  {
    if p > 0 {
      RowCounts(files[1..], p - 1, descs, i);
    }
  }

  // The invariant

  /** The tables, and for each FCB the handles that reaping dropped. */
  datatype World = World(s: Tables, gone: seq<nat>)

  ghost predicate Live(s: Tables) {
    forall p, fd :: 0 <= p < |s.files| && 0 <= fd < |s.files[p]| && s.files[p][fd] != NULL ==> IsOpen(s, p, fd)
  }

  ghost predicate Counted(w: World) {
    |w.gone| == |w.s.fcbs|
    && forall i :: 0 <= i < |w.gone| ==> w.s.fcbs[i].count == SumRefers(w.s.files, w.s.descs, i) + w.gone[i]
  }

  /** A descriptor with an FCB has been counted at least once, and never less. */
  ghost predicate Held(s: Tables) {
    forall k :: 0 <= k < |s.descs| && s.descs[k].fcb != NULL ==> 0 <= s.descs[k].fcb < |s.fcbs| && s.descs[k].count >= 1
  }

  predicate Agrees(d: Image, f: Fcb, i: int) {
    0 <= i && f.cluster == EntryCluster(d, i) && f.dirIndex == i && f.size == EntrySize(d, i)
  }

  /** FCBs in use, now or earlier, hold what the directory says. */
  ghost predicate Agree(d: Image, s: Tables) {
    && (forall i :: 0 <= i < |s.fcbs| && s.fcbs[i].count > 0 ==> Agrees(d, s.fcbs[i], i))
    && (forall k :: 0 <= k < |s.descs| && 0 <= s.descs[k].fcb < |s.fcbs| ==>
        Agrees(d, s.fcbs[s.descs[k].fcb], s.descs[k].fcb))
  }

  ghost predicate Inv(d: Image, w: World) {
    Shape(d, w.s) && Live(w.s) && Counted(w) && Held(w.s) && Agree(d, w.s)
  }

  datatype Op =
    | OpenOp(p: nat, found: U32)
    | CloseOp(p: nat, fd: nat)
    | ForkOp(parent: nat, child: nat)
    | DiscardOp(p: nat)
    | ReadOp(p: nat, fd: nat, size: U32)

  /** fork copies into the zeroed structure of a new process; a read does not lose count on a chain of 4 GB. */
  ghost predicate Enabled(d: Image, s: Tables, op: Op) {
    match op
    case OpenOp(p, found) => p < |s.files| && (found != NOT_FOUND ==> found < RootEntryCount(d))
    case CloseOp(p, fd) => IsOpen(s, p, fd)
    case ForkOp(parent, child) => parent < |s.files| && child < |s.files| && parent != child
        && s.files[child] == EmptyRow()
    case DiscardOp(p) => p < |s.files|
    case ReadOp(p, fd, size) =>
      && IsOpen(s, p, fd) && ClusterSize(d) > 0
      && (Refused(s, p, fd, size) || CopyWraps(d, PositionOf(s, p, fd), size)
          || !LoopWraps(d, ClusterOf(s, p, fd), PositionOf(s, p, fd), size))
  }

  function GoneAfter(s: Tables, gone: seq<nat>, p: nat): seq<nat>
    requires p < |s.files|
  {
    seq(|gone|, i requires 0 <= i < |gone| => gone[i] + Refers(s.files[p], s.descs, i))
  }

  ghost function Step(d: Image, w: World, op: Op): World
    requires Inv(d, w) && Enabled(d, w.s, op)
  {
    match op
    case OpenOp(p, found) => World(Open(d, w.s, p, found).1, w.gone)
    case CloseOp(p, fd) => World(Close(w.s, p, fd), w.gone)
    case ForkOp(parent, child) => World(ForkFiles(w.s, parent, child), w.gone)
    case DiscardOp(p) => World(Discard(w.s, p), GoneAfter(w.s, w.gone, p))
    case ReadOp(p, fd, size) => World(Read(d, w.s, p, fd, size), w.gone)
  }

  /** The assertion in put_fcb holds whenever a live handle is closed. */
  lemma ClosingIsCounted(d: Image, w: World, p: nat, fd: nat)
    requires Inv(d, w) && IsOpen(w.s, p, fd)
    ensures w.s.fcbs[FcbOf(w.s, p, fd)].count > 0 && w.s.descs[w.s.files[p][fd]].count > 0
  {
    var i := FcbOf(w.s, p, fd);
    HandleCounts(w.s.files[p], fd, w.s.descs, i);
    RowCounts(w.s.files, p, w.s.descs, i);
  }

  lemma OpenCounted(d: Image, w: World, p: nat, found: U32)
    requires Inv(d, w) && Enabled(d, w.s, OpenOp(p, found))
    ensures Counted(Step(d, w, OpenOp(p, found)))
  {
    var s, w' := w.s, Step(d, w, OpenOp(p, found));
    var fd, k := FreeFd(s.files[p]), FreeDesc(s.descs);
    if w'.s != s {
      forall q | 0 <= q < |s.files| ensures SameFcbs(s.files[q], s.descs, w'.s.descs) {
        UnusedDesc(s, k, q);
      }
      forall i | 0 <= i < |w.gone| ensures w'.s.fcbs[i].count == SumRefers(w'.s.files, w'.s.descs, i) + w.gone[i] {
        SumSame(s.files, s.descs, w'.s.descs, i);
        SumSet(s.files, p, s.files[p][fd := k], w'.s.descs, i);
        RefersSet(s.files[p], fd, k, w'.s.descs, i);
      }
    }
  }

  /** No handle points to a descriptor without an FCB. */
  lemma UnusedDesc(s: Tables, k: nat, q: nat)
    requires Live(s) && k < |s.descs| && s.descs[k].fcb == NULL && q < |s.files|
    ensures forall fd :: 0 <= fd < |s.files[q]| ==> s.files[q][fd] != k
  {
    forall fd | 0 <= fd < |s.files[q]| ensures s.files[q][fd] != k {
      if s.files[q][fd] != NULL {
        assert IsOpen(s, q, fd);
      }
    }
  }

  lemma CloseCounted(d: Image, w: World, p: nat, fd: nat)
    requires Inv(d, w) && IsOpen(w.s, p, fd)
    ensures Counted(Step(d, w, CloseOp(p, fd)))
  {
    var s, w' := w.s, Step(d, w, CloseOp(p, fd));
    ClosingIsCounted(d, w, p, fd);
    forall i | 0 <= i < |w.gone| ensures w'.s.fcbs[i].count == SumRefers(w'.s.files, w'.s.descs, i) + w.gone[i] {
      SumSet(s.files, p, s.files[p][fd := NULL], s.descs, i);
      RefersSet(s.files[p], fd, NULL, s.descs, i);
    }
  }

  lemma ForkCounted(d: Image, w: World, parent: nat, child: nat)
    requires Inv(d, w) && Enabled(d, w.s, ForkOp(parent, child))
    ensures Counted(Step(d, w, ForkOp(parent, child)))
  {
    var s, w' := w.s, Step(d, w, ForkOp(parent, child));
    forall i | 0 <= i < |w.gone| ensures w'.s.fcbs[i].count == SumRefers(w'.s.files, w'.s.descs, i) + w.gone[i] {
      SumSame(w'.s.files, s.descs, w'.s.descs, i);
      SumSet(s.files, child, s.files[parent], s.descs, i);
      NoneRefer(s.files[child], s.descs, i);
    }
  }

  lemma DiscardCounted(d: Image, w: World, p: nat)
    requires Inv(d, w) && p < |w.s.files|
    ensures Counted(Step(d, w, DiscardOp(p)))
  {
    var s, w' := w.s, Step(d, w, DiscardOp(p));
    forall i | 0 <= i < |w.gone| ensures w'.s.fcbs[i].count == SumRefers(w'.s.files, w'.s.descs, i) + w'.gone[i] {
      SumSet(s.files, p, EmptyRow(), s.descs, i);
      NoneRefer(EmptyRow(), s.descs, i);
    }
  }

  lemma ReadCounted(d: Image, w: World, p: nat, fd: nat, size: U32)
    requires Inv(d, w) && Enabled(d, w.s, ReadOp(p, fd, size))
    ensures Counted(Step(d, w, ReadOp(p, fd, size)))
  {
    hide Delivered, Shape, Held, Agree, Live;
    var s, w' := w.s, Step(d, w, ReadOp(p, fd, size));
    forall i | 0 <= i < |w.gone| ensures w'.s.fcbs[i].count == SumRefers(w'.s.files, w'.s.descs, i) + w.gone[i] {
      SumSame(s.files, s.descs, w'.s.descs, i);
    }
  }

  lemma ReadLengthAtMost(d: Image, c: nat, position: nat, size: nat)
    requires ClusterSize(d) > 0
    ensures ReadLength(d, c, position, size) <= size
  {
  }

  /** Everything but the counts. */
  ghost predicate Sound(d: Image, s: Tables) {
    Shape(d, s) && Live(s) && Held(s) && Agree(d, s)
  }

  lemma OpenSound(d: Image, s: Tables, p: nat, found: U32)
    requires Sound(d, s) && Enabled(d, s, OpenOp(p, found)) && forall i :: 0 <= i < |s.fcbs| ==> s.fcbs[i].count >= 0
    ensures Sound(d, Open(d, s, p, found).1)
  {
    hide EntryCluster, EntrySize;
    var k := FreeDesc(s.descs);
    if k < |s.descs| {
      forall q | 0 <= q < |s.files| ensures forall fd :: 0 <= fd < |s.files[q]| ==> s.files[q][fd] != k {
        UnusedDesc(s, k, q);
      }
    }
  }

  lemma CountsNonNegative(w: World)
    requires Counted(w)
    ensures forall i :: 0 <= i < |w.s.fcbs| ==> w.s.fcbs[i].count >= 0
  {
  }

  lemma CloseSound(d: Image, s: Tables, p: nat, fd: nat)
    requires Sound(d, s) && IsOpen(s, p, fd) && s.descs[s.files[p][fd]].count > 0
    ensures Sound(d, Close(s, p, fd))
  {
    hide EntryCluster, EntrySize;
  }

  lemma ForkSound(d: Image, s: Tables, parent: nat, child: nat)
    requires Sound(d, s) && Enabled(d, s, ForkOp(parent, child))
    ensures Sound(d, ForkFiles(s, parent, child))
  {
    hide EntryCluster, EntrySize;
    var s' := ForkFiles(s, parent, child);
    forall i | 0 <= i < |s'.fcbs| && s'.fcbs[i].count > 0 ensures Agrees(d, s'.fcbs[i], i) {
      if s.fcbs[i].count <= 0 {
        SomeHandle(s.files[parent], s.descs, i);
      }
    }
  }

  lemma {:induction false} SomeHandle(row: seq<int>, descs: seq<FileDesc>, i: int)
    requires Refers(row, descs, i) > 0
    ensures exists k :: 0 <= k < |descs| && descs[k].fcb == i
  {
    if !(0 <= row[0] < |descs| && descs[row[0]].fcb == i) {
      SomeHandle(row[1..], descs, i);
    }
  }

  lemma DiscardSound(d: Image, s: Tables, p: nat)
    requires Sound(d, s) && p < |s.files|
    ensures Sound(d, Discard(s, p))
  {
    hide EntryCluster, EntrySize;
  }

  lemma ReadSound(d: Image, s: Tables, p: nat, fd: nat, size: U32)
    requires Sound(d, s) && Enabled(d, s, ReadOp(p, fd, size))
    ensures Sound(d, Read(d, s, p, fd, size))
  {
    hide EntryCluster, EntrySize, Delivered;
  }

  /**
   Every file call keeps the invariant: an FCB's count is the number of live handles to it plus those
   dropped by reaping, every live handle has an FCB, and FCBs agree with the directory.
   */
  lemma StepInv(d: Image, w: World, op: Op)
    requires Inv(d, w) && Enabled(d, w.s, op)
    ensures Inv(d, Step(d, w, op))
  {
    hide Live, Counted, Held, Agree, Shape, Open, Close, ForkFiles, Discard, Read;
    match op
    case OpenOp(p, found) =>
      OpenCounted(d, w, p, found);
      CountsNonNegative(w);
      OpenSound(d, w.s, p, found);
    case CloseOp(p, fd) =>
      CloseCounted(d, w, p, fd);
      ClosingIsCounted(d, w, p, fd);
      CloseSound(d, w.s, p, fd);
    case ForkOp(parent, child) =>
      ForkCounted(d, w, parent, child);
      ForkSound(d, w.s, parent, child);
    case DiscardOp(p) =>
      DiscardCounted(d, w, p);
      DiscardSound(d, w.s, p);
    case ReadOp(p, fd, size) =>
      ReadCounted(d, w, p, fd, size);
      ReadSound(d, w.s, p, fd, size);
  }

  // What a child inherits

  /** The handles of a row that point to descriptor k. */
  function HandlesOn(row: seq<int>, k: int): set<nat> { set fd: nat | fd < |row| && row[fd] == k }

  /** The handles of a row that are open on FCB i. */
  function HandlesOf(row: seq<int>, descs: seq<FileDesc>, i: int): set<nat> {
    set fd: nat | fd < |row| && 0 <= row[fd] < |descs| && descs[row[fd]].fcb == i
  }

  lemma {:induction false} UsesAre(row: seq<int>, k: int)
    ensures Uses(row, k) == |HandlesOn(row, k)|
  {
    if row == [] {
      assert HandlesOn(row, k) == {};
    } else {
      var n := |row| - 1;
      UsesAre(row[..n], k);
      UsesLast(row, k);
      var last: set<nat> := if row[n] == k then {n} else {};
      assert HandlesOn(row, k) == HandlesOn(row[..n], k) + last;
    }
  }

  lemma {:induction false} UsesLast(row: seq<int>, k: int)
    requires row != []
    ensures Uses(row, k) == Uses(row[..|row| - 1], k) + if row[|row| - 1] == k then 1 else 0
  {
    if |row| > 1 {
      UsesLast(row[1..], k);
      assert row[..|row| - 1][1..] == row[1..][..|row| - 2];
    }
  }

  lemma {:induction false} RefersAre(row: seq<int>, descs: seq<FileDesc>, i: int)
    ensures Refers(row, descs, i) == |HandlesOf(row, descs, i)|
  {
    if row == [] {
      assert HandlesOf(row, descs, i) == {};
    } else {
      var n := |row| - 1;
      RefersAre(row[..n], descs, i);
      RefersLast(row, descs, i);
      var last: set<nat> := if One(descs, row[n], i) == 1 then {n} else {};
      assert HandlesOf(row, descs, i) == HandlesOf(row[..n], descs, i) + last;
    }
  }

  lemma {:induction false} RefersLast(row: seq<int>, descs: seq<FileDesc>, i: int)
    requires row != []
    ensures Refers(row, descs, i) == Refers(row[..|row| - 1], descs, i) + One(descs, row[|row| - 1], i)
  {
    if |row| > 1 {
      RefersLast(row[1..], descs, i);
      assert row[..|row| - 1][1..] == row[1..][..|row| - 2];
    }
  }

  /**
   What fork does to the tables, in terms of handles: every handle of the child is the parent's, every
   other row is as before, and the count of each descriptor and of each FCB rises by the number of the
   parent's handles on it; nothing else changes.
   */
  ghost predicate Inherited(s: Tables, s': Tables, parent: nat, child: nat) {
    && parent < |s.files| && child < |s.files| && |s'.files| == |s.files| && |s'.descs| == |s.descs|
    && |s'.fcbs| == |s.fcbs|
    && |s'.files[child]| == |s.files[parent]|
    && (forall fd :: 0 <= fd < |s.files[parent]| ==> s'.files[child][fd] == s.files[parent][fd])
    && (forall p :: 0 <= p < |s.files| && p != child ==> s'.files[p] == s.files[p])
    && (forall k :: 0 <= k < |s.descs| ==>
          && s'.descs[k].fcb == s.descs[k].fcb && s'.descs[k].position == s.descs[k].position
          && s'.descs[k].count == s.descs[k].count + |HandlesOn(s.files[parent], k)|)
    && (forall i :: 0 <= i < |s.fcbs| ==>
          && s'.fcbs[i].cluster == s.fcbs[i].cluster && s'.fcbs[i].dirIndex == s.fcbs[i].dirIndex
          && s'.fcbs[i].size == s.fcbs[i].size
          && s'.fcbs[i].count == s.fcbs[i].count + |HandlesOf(s.files[parent], s.descs, i)|)
  }

  /** A handle of the child reads the same file, from the same position, as the parent's handle did. */
  ghost predicate SameHandle(s: Tables, p: nat, s': Tables, p': nat, fd: nat) {
    && IsOpen(s, p, fd) && IsOpen(s', p', fd) && s'.files[p'][fd] == s.files[p][fd]
    && FcbOf(s', p', fd) == FcbOf(s, p, fd) && PositionOf(s', p', fd) == PositionOf(s, p, fd)
    && SizeOf(s', p', fd) == SizeOf(s, p, fd) && ClusterOf(s', p', fd) == ClusterOf(s, p, fd)
  }

  lemma ChildInherits(d: Image, w: World, parent: nat, child: nat)
    requires Inv(d, w) && Enabled(d, w.s, ForkOp(parent, child))
    ensures Inherited(w.s, Step(d, w, ForkOp(parent, child)).s, parent, child)
    ensures forall fd :: 0 <= fd < FDS && IsOpen(w.s, parent, fd) ==>
      SameHandle(w.s, parent, Step(d, w, ForkOp(parent, child)).s, child, fd)
  {
    var s, s' := w.s, Step(d, w, ForkOp(parent, child)).s;
    forall k | 0 <= k < |s.descs| ensures s'.descs[k].count == s.descs[k].count + |HandlesOn(s.files[parent], k)| {
      UsesAre(s.files[parent], k);
    }
    forall i | 0 <= i < |s.fcbs|
      ensures s'.fcbs[i].count == s.fcbs[i].count + |HandlesOf(s.files[parent], s.descs, i)|
    {
      RefersAre(s.files[parent], s.descs, i);
    }
  }

  // Runs

  ghost predicate RunOk(d: Image, w: World, run: seq<Op>)
    requires Inv(d, w)
    decreases |run|
  {
    run == [] || (Enabled(d, w.s, run[0]) && (StepInv(d, w, run[0]); RunOk(d, Step(d, w, run[0]), run[1..])))
  }

  ghost function Run(d: Image, w: World, run: seq<Op>): World
    requires Inv(d, w) && RunOk(d, w, run)
    decreases |run|
  {
    if run == [] then w else
    StepInv(d, w, run[0]);
    Run(d, Step(d, w, run[0]), run[1..])
  }

  lemma {:induction false} RunInv(d: Image, w: World, run: seq<Op>)
    requires Inv(d, w) && RunOk(d, w, run)
    ensures Inv(d, Run(d, w, run))
    decreases |run|
  {
    if run != [] {
      hide Inv;
      StepInv(d, w, run[0]);
      RunInv(d, Step(d, w, run[0]), run[1..]);
    }
  }

  /** A descriptor that has an FCB keeps it: close_file never frees one. */
  lemma DescriptorStep(d: Image, w: World, op: Op, k: nat)
    requires Inv(d, w) && Enabled(d, w.s, op) && k < |w.s.descs| && w.s.descs[k].fcb != NULL
    ensures var s' := Step(d, w, op).s; |s'.descs| == |w.s.descs| && s'.descs[k].fcb == w.s.descs[k].fcb
  {
    if op.CloseOp? {
      ClosingIsCounted(d, w, op.p, op.fd);
    }
    hide Counted, Live, Agree, Held, Delivered;
  }

  /** So no descriptor is handed out twice, in any run. */
  lemma {:induction false} DescriptorsNeverRecycled(d: Image, w: World, run: seq<Op>, k: nat)
    requires Inv(d, w) && RunOk(d, w, run) && k < |w.s.descs| && w.s.descs[k].fcb != NULL
    ensures var s' := Run(d, w, run).s; |s'.descs| == |w.s.descs| && s'.descs[k].fcb == w.s.descs[k].fcb
    ensures FreeDesc(Run(d, w, run).s.descs) != k
    decreases |run|
  {
    if run != [] {
      hide Inv, Step, Enabled;
      StepInv(d, w, run[0]);
      DescriptorStep(d, w, run[0], k);
      DescriptorsNeverRecycled(d, Step(d, w, run[0]), run[1..], k);
    }
  }

  /** How many descriptors have an FCB. */
  function UsedDescs(descs: seq<FileDesc>): (n: nat)
    ensures n <= |descs|
  {
    if descs == [] then 0 else (if descs[0].fcb == NULL then 0 else 1) + UsedDescs(descs[1..])
  }

  /** How many opens of a run succeed. */
  ghost function Opens(d: Image, w: World, run: seq<Op>): nat
    requires Inv(d, w) && RunOk(d, w, run)
    decreases |run|
  {
    if run == [] then 0 else
    StepInv(d, w, run[0]);
    (if Succeeds(d, w.s, run[0]) then 1 else 0) + Opens(d, Step(d, w, run[0]), run[1..])
  }

  predicate Succeeds(d: Image, s: Tables, op: Op) {
    op.OpenOp? && op.p < |s.files| && (op.found != NOT_FOUND ==> op.found < |s.fcbs|)
        && Open(d, s, op.p, op.found).0 != NULL
  }

  lemma {:induction false} UsedMore(descs: seq<FileDesc>, desc: FileDesc)
    requires FreeDesc(descs) < |descs| && desc.fcb != NULL
    ensures UsedDescs(descs[FreeDesc(descs) := desc]) == UsedDescs(descs) + 1
  {
    var k := FreeDesc(descs);
    if k > 0 {
      UsedMore(descs[1..], desc);
      assert descs[k := desc][1..] == descs[1..][k - 1 := desc];
    } else {
      assert descs[0 := desc][1..] == descs[1..];
    }
  }

  lemma {:induction false} UsedSame(descs: seq<FileDesc>, descs': seq<FileDesc>)
    requires |descs'| == |descs| && forall k :: 0 <= k < |descs| ==> descs'[k].fcb == descs[k].fcb
    ensures UsedDescs(descs') == UsedDescs(descs)
  {
    if descs != [] {
      UsedSame(descs[1..], descs'[1..]);
    }
  }

  lemma {:induction false} AllUsed(descs: seq<FileDesc>)
    ensures UsedDescs(descs) == |descs| <==> FreeDesc(descs) == |descs|
  {
    if descs != [] {
      AllUsed(descs[1..]);
    }
  }

  /** A successful open uses up a descriptor; no other call changes how many are used. */
  lemma UsedStep(d: Image, w: World, op: Op)
    requires Inv(d, w) && Enabled(d, w.s, op)
    ensures UsedDescs(Step(d, w, op).s.descs) == UsedDescs(w.s.descs) + if Succeeds(d, w.s, op) then 1 else 0
  {
    var s, s' := w.s, Step(d, w, op).s;
    if Succeeds(d, s, op) {
      UsedMore(s.descs, FileDesc(op.found, 0, 1));
    } else {
      if op.CloseOp? {
        ClosingIsCounted(d, w, op.p, op.fd);
      }
      hide Inv, Delivered, UsedDescs;
      UsedSame(s.descs, s'.descs);
    }
  }

  /**
   The descriptors are used up for good: over every run, those in use at the start and the opens that
   succeed add up to those in use at the end. So a table of n descriptors serves n opens, and then
   open_file fails for ever.
   */
  lemma {:induction false} OpensUseUpDescriptors(d: Image, w: World, run: seq<Op>)
    requires Inv(d, w) && RunOk(d, w, run)
    ensures var t := Run(d, w, run).s;
            && |t.descs| == |w.s.descs|
            && UsedDescs(w.s.descs) + Opens(d, w, run) == UsedDescs(t.descs) <= |w.s.descs|
    decreases |run|
  {
    if run != [] {
      hide Inv, Step, Enabled, Succeeds, UsedDescs;
      StepInv(d, w, run[0]);
      UsedStep(d, w, run[0]);
      SameTable(d, w, run[0]);
      OpensUseUpDescriptors(d, Step(d, w, run[0]), run[1..]);
    }
  }

  lemma SameTable(d: Image, w: World, op: Op)
    requires Inv(d, w) && Enabled(d, w.s, op)
    ensures |Step(d, w, op).s.descs| == |w.s.descs|
  {
    hide Inv, Delivered;
  }

  /** An open fails for want of a descriptor exactly when all are in use. */
  lemma FullTable(d: Image, s: Tables, p: nat, found: U32)
    requires Shape(d, s) && Enabled(d, s, OpenOp(p, found)) && found != NOT_FOUND && FreeFd(s.files[p]) < |s.files[p]|
    ensures Open(d, s, p, found).0 == NULL <==> UsedDescs(s.descs) == |s.descs|
  {
    AllUsed(s.descs);
  }

  // Positions

  ghost predicate Positions(s: Tables) {
    forall k :: 0 <= k < |s.descs| && 0 <= s.descs[k].fcb < |s.fcbs| ==>
        s.descs[k].position <= s.fcbs[s.descs[k].fcb].size
  }

  /**
   With positions inside their files, the check of read_file refuses exactly the reads that go past the
   end of the file if and only if position and size add up without a wrap.
   */
  lemma ReadCheckIsExact(s: Tables, p: nat, fd: nat, size: U32)
    requires Positions(s) && IsOpen(s, p, fd)
    ensures (Refused(s, p, fd, size) <==> PositionOf(s, p, fd) + size > SizeOf(s, p, fd)) <==>
        PositionOf(s, p, fd) + size < U32_LIMIT
  {
    assert PositionOf(s, p, fd) <= SizeOf(s, p, fd);
  }

  /** Calls other than read leave positions inside their files. */
  lemma OthersKeepPositions(d: Image, w: World, op: Op)
    requires Inv(d, w) && Enabled(d, w.s, op) && !op.ReadOp? && Positions(w.s)
    ensures Positions(Step(d, w, op).s)
  {
    hide Counted, EntryCluster, EntrySize, Live;
    match op
    case OpenOp(p, found) => OpenKeepsPositions(d, w, p, found);
    case CloseOp(p, fd) =>
    case ForkOp(_, _) =>
    case DiscardOp(_) =>
  }

  lemma OpenKeepsPositions(d: Image, w: World, p: nat, found: U32)
    requires Inv(d, w) && Enabled(d, w.s, OpenOp(p, found)) && Positions(w.s)
    ensures Positions(Open(d, w.s, p, found).1)
  {
    hide EntryCluster, EntrySize;
    CountsNonNegative(w);
  }

  /**
   When positions stay inside their files across a read, for a chain of n clusters of data: always,
   unless the wrapped sum lets the read through, its first copy is not the one to wrap, and the chain
   reaches past the end of the file.
   */
  lemma ReadKeepsPositions(d: Image, s: Tables, p: nat, fd: nat, size: U32, n: nat)
    requires Positions(s) && IsOpen(s, p, fd) && ClusterSize(d) > 0 && ChainOf(d, ClusterOf(s, p, fd), n)
    requires forall i :: 0 <= i < n ==> InData(d, Nth(d, ClusterOf(s, p, fd), i))
    ensures Positions(Read(d, s, p, fd, size)) <==>
      || Refused(s, p, fd, size) || PositionOf(s, p, fd) + size < U32_LIMIT
      || !Reaches(d, ClusterOf(s, p, fd), PositionOf(s, p, fd)) || CopyWraps(d, PositionOf(s, p, fd), size)
      || Times(n, ClusterSize(d)) <= SizeOf(s, p, fd)
  {
    hide ReadLength, ClusterSize, Times, Reaches, InData, ChainOf, CopyWraps;
    var c, position := ClusterOf(s, p, fd), PositionOf(s, p, fd);
    assert position <= SizeOf(s, p, fd);
    ReadLengthAtMost(d, c, position, size);
    EndingChainFits(d, c, n);
    if !Refused(s, p, fd, size) && position + size >= U32_LIMIT && Reaches(d, c, position)
        && !CopyWraps(d, position, size) {
      WrappedRead(d, c, n, position, size);
      var t := Read(d, s, p, fd, size);
      var k := s.files[p][fd];
      assert t.descs[k].position == if n == 0 then position else Times(n, ClusterSize(d));
    }
  }

  /** A read let through by the wrapped sum that does not wrap in its first copy reads to the end of the chain. */
  lemma WrappedRead(d: Image, c: nat, n: nat, position: U32, size: U32)
    requires ClusterSize(d) > 0 && ChainOf(d, c, n) && Times(n, ClusterSize(d)) <= IMAGE_SIZE
    requires position + size >= U32_LIMIT && Reaches(d, c, position)
    ensures if n == 0 then ReadLength(d, c, position, size) <= 0 && Times(n, ClusterSize(d)) == 0
            else ReadLength(d, c, position, size) == Times(n, ClusterSize(d)) - position > 0
  {
    hide ClusterSize, Times;
    if n == 0 {
      TimesZero(ClusterSize(d));
    } else {
      HaltsPastTheEnd(d, c, n, position);
      ReadLengthInChain(d, c, n, position, size);
    }
  }

  /** The sum of position and size of an accepted read does not wrap. */
  ghost predicate NoWrap(s: Tables, op: Op) {
    op.ReadOp? && IsOpen(s, op.p, op.fd) && !Refused(s, op.p, op.fd, op.size) ==>
        PositionOf(s, op.p, op.fd) + op.size < U32_LIMIT
  }

  ghost predicate RunNoWrap(d: Image, w: World, run: seq<Op>)
    requires Inv(d, w) && RunOk(d, w, run)
    decreases |run|
  {
    run == [] || (NoWrap(w.s, run[0]) && (StepInv(d, w, run[0]); RunNoWrap(d, Step(d, w, run[0]), run[1..])))
  }

  lemma DeliveredAtMost(d: Image, s: Tables, p: nat, fd: nat, size: U32)
    requires IsOpen(s, p, fd) && ClusterSize(d) > 0
    ensures Delivered(d, s, p, fd, size) <= size && (Refused(s, p, fd, size) ==> Delivered(d, s, p, fd, size) == 0)
  {
    hide ReadLength, ClusterSize, Reaches, CopyWraps;
    ReadLengthAtMost(d, ClusterOf(s, p, fd), PositionOf(s, p, fd), size);
  }

  lemma ReadNoWrap(d: Image, s: Tables, p: nat, fd: nat, size: U32)
    requires IsOpen(s, p, fd) && ClusterSize(d) > 0 && NoWrap(s, ReadOp(p, fd, size)) && Positions(s)
    ensures Positions(Read(d, s, p, fd, size))
  {
    hide Delivered, ClusterSize;
    DeliveredAtMost(d, s, p, fd, size);
  }

  lemma NoWrapKeepsPositions(d: Image, w: World, op: Op)
    requires Inv(d, w) && Enabled(d, w.s, op) && NoWrap(w.s, op) && Positions(w.s)
    ensures Positions(Step(d, w, op).s)
  {
    if op.ReadOp? {
      hide Inv, Positions, Read, NoWrap;
      ReadNoWrap(d, w.s, op.p, op.fd, op.size);
    } else {
      OthersKeepPositions(d, w, op);
    }
  }

  // Reads through one descriptor

  /**
   A read through descriptor k, if any, is refused, or halts, or neither its first copy nor the sum of
   position and delivered bytes wraps.
   */
  ghost predicate Plain(d: Image, s: Tables, op: Op, k: nat) {
    op.ReadOp? && IsOpen(s, op.p, op.fd) && s.files[op.p][op.fd] == k && ClusterSize(d) > 0
        && !Refused(s, op.p, op.fd, op.size)
    && Reaches(d, ClusterOf(s, op.p, op.fd), PositionOf(s, op.p, op.fd)) ==>
      && !CopyWraps(d, PositionOf(s, op.p, op.fd), op.size)
      && PositionOf(s, op.p, op.fd) + ReadLength(d, ClusterOf(s, op.p, op.fd), PositionOf(s, op.p, op.fd),
          op.size) < U32_LIMIT
  }

  ghost predicate RunPlain(d: Image, w: World, run: seq<Op>, k: nat)
    requires Inv(d, w) && RunOk(d, w, run)
    decreases |run|
  {
    run == [] || (Plain(d, w.s, run[0], k) && (StepInv(d, w, run[0]); RunPlain(d, Step(d, w, run[0]), run[1..], k)))
  }

  /** A read whose sum of position and size does not wrap is plain. */
  lemma NoWrapIsPlain(d: Image, s: Tables, op: Op, k: nat)
    requires NoWrap(s, op)
    ensures Plain(d, s, op, k)
  {
    hide ReadLength, ClusterSize, Reaches;
    if op.ReadOp? && IsOpen(s, op.p, op.fd) && ClusterSize(d) > 0 {
      ReadLengthAtMost(d, ClusterOf(s, op.p, op.fd), PositionOf(s, op.p, op.fd), op.size);
      Split(PositionOf(s, op.p, op.fd), ClusterSize(d));
      TimesGrows(0, PositionOf(s, op.p, op.fd) / ClusterSize(d), ClusterSize(d));
      TimesZero(ClusterSize(d));
    }
  }

  /** On a chain of data clusters that ends, reads are plain unless their first copy wraps. */
  lemma EndingChainIsPlain(d: Image, s: Tables, p: nat, fd: nat, size: U32, n: nat)
    requires IsOpen(s, p, fd) && ClusterSize(d) > 0 && ChainOf(d, ClusterOf(s, p, fd), n)
    requires forall i :: 0 <= i < n ==> InData(d, Nth(d, ClusterOf(s, p, fd), i))
    ensures Plain(d, s, ReadOp(p, fd, size), s.files[p][fd]) <==>
      || Refused(s, p, fd, size) || !Reaches(d, ClusterOf(s, p, fd), PositionOf(s, p, fd))
      || !CopyWraps(d, PositionOf(s, p, fd), size)
  {
    hide ReadLength, ClusterSize, Reaches, InData, ChainOf, CopyWraps, Refused;
    EndingChainFits(d, ClusterOf(s, p, fd), n);
    ReadEndsInChain(d, ClusterOf(s, p, fd), n, PositionOf(s, p, fd), size);
  }

  lemma ReadEndsInChain(d: Image, c: nat, n: nat, position: nat, size: nat)
    requires ClusterSize(d) > 0 && ChainOf(d, c, n)
    ensures position + ReadLength(d, c, position, size) <= Times(n, ClusterSize(d))
  {
    hide ClusterSize, Times;
    var bound := ClustersFor(d, position + size);
    LengthIs(d, c, bound);
    assert Length(d, c, bound) <= n;
    TimesGrows(Length(d, c, bound), n, ClusterSize(d));
  }

  /** The bytes a step delivers through descriptor k. */
  ghost function Data(d: Image, s: Tables, op: Op, k: nat): seq<Byte>
    requires Enabled(d, s, op)
  {
    if op.ReadOp? && s.files[op.p][op.fd] == k && Delivered(d, s, op.p, op.fd, op.size) > 0 then
      FileBytes(d, ClusterOf(s, op.p, op.fd), s.descs[k].position, Delivered(d, s, op.p, op.fd, op.size))
    else []
  }

  /** What all reads of a run through descriptor k deliver, by whichever process, in call order. */
  ghost function AllData(d: Image, w: World, run: seq<Op>, k: nat): seq<Byte>
    requires Inv(d, w) && RunOk(d, w, run)
    decreases |run|
  {
    if run == [] then [] else
    StepInv(d, w, run[0]);
    Data(d, w.s, run[0], k) + AllData(d, Step(d, w, run[0]), run[1..], k)
  }

  lemma PositionStep(d: Image, w: World, op: Op, k: nat)
    requires Inv(d, w) && Enabled(d, w.s, op) && k < |w.s.descs| && w.s.descs[k].fcb != NULL && ClusterSize(d) > 0
    requires Plain(d, w.s, op, k)
    ensures var s' := Step(d, w, op).s;
            && k < |s'.descs| && s'.descs[k].position == w.s.descs[k].position + |Data(d, w.s, op, k)|
            && Data(d, w.s, op, k) == FileBytes(d, EntryCluster(d, w.s.descs[k].fcb), w.s.descs[k].position,
                |Data(d, w.s, op, k)|)
  {
    DescriptorStep(d, w, op, k);
    if op.ReadOp? {
      hide Counted, Live, Held, EntryCluster, EntrySize, Delivered, ClusterSize, FileBytes, Refused, Plain;
      ReadPosition(d, w.s, op.p, op.fd, op.size, k);
    } else {
      hide Counted, EntryCluster, EntrySize, FileByte;
      if op.CloseOp? {
        ClosingIsCounted(d, w, op.p, op.fd);
      }
      NoBytes(d, EntryCluster(d, w.s.descs[k].fcb), w.s.descs[k].position);
    }
  }

  /** A read moves the position of its own descriptor by what it delivers. */
  lemma ReadPosition(d: Image, s: Tables, p: nat, fd: nat, size: U32, k: nat)
    requires Enabled(d, s, ReadOp(p, fd, size)) && Plain(d, s, ReadOp(p, fd, size), k) && k < |s.descs|
    ensures var s', n := Read(d, s, p, fd, size), Delivered(d, s, p, fd, size);
            && k < |s'.descs|
            && s'.descs[k].position == s.descs[k].position + if s.files[p][fd] == k && n > 0 then n else 0
  {
    hide ClusterSize, LoopWraps, CopyWraps, Reaches, ReadLength, Refused;
  }

  /**
   Shared offsets: plain reads through one descriptor, by all processes that inherited it, deliver
   consecutive slices of the cluster chain. Together they are one read of the total length, and the
   position ends after it; within the file, if no accepted sum wraps.
   */
  lemma {:induction false} InterleavedReads(d: Image, w: World, run: seq<Op>, k: nat)
    requires Inv(d, w) && RunOk(d, w, run) && k < |w.s.descs| && w.s.descs[k].fcb != NULL && ClusterSize(d) > 0
    requires RunPlain(d, w, run, k)
    ensures var t, data := Run(d, w, run).s, AllData(d, w, run, k);
            && k < |t.descs| && t.descs[k].position == w.s.descs[k].position + |data|
            && data == FileBytes(d, EntryCluster(d, w.s.descs[k].fcb), w.s.descs[k].position, |data|)
            && 0 <= w.s.descs[k].fcb
            && (Positions(w.s) && RunNoWrap(d, w, run) ==> t.descs[k].position <= EntrySize(d, w.s.descs[k].fcb))
    decreases |run|
  {
    hide Inv, Step, Enabled, FileBytes, EntryCluster, EntrySize, Data, ClusterSize, Positions, NoWrap, Plain;
    if run == [] {
      WithinFile(d, w, k);
      NoBytes(d, EntryCluster(d, w.s.descs[k].fcb), w.s.descs[k].position);
    } else {
      var w1 := Step(d, w, run[0]);
      StepInv(d, w, run[0]);
      DescriptorStep(d, w, run[0], k);
      PositionStep(d, w, run[0], k);
      if Positions(w.s) && RunNoWrap(d, w, run) {
        NoWrapKeepsPositions(d, w, run[0]);
      }
      InterleavedReads(d, w1, run[1..], k);
      Joined(d, EntryCluster(d, w.s.descs[k].fcb), w.s.descs[k].position, Data(d, w.s, run[0], k),
          AllData(d, w1, run[1..], k));
    }
  }

  lemma Joined(d: Image, c: nat, position: nat, a: seq<Byte>, b: seq<Byte>)
    requires ClusterSize(d) > 0 && a == FileBytes(d, c, position, |a|) && b == FileBytes(d, c, position + |a|, |b|)
    ensures a + b == FileBytes(d, c, position, |a + b|)
  {
    hide FileBytes, ClusterSize;
    ConsecutiveReads(d, c, position, |a|, |b|);
  }

  lemma NoBytes(d: Image, c: nat, position: nat)
    requires ClusterSize(d) > 0
    ensures FileBytes(d, c, position, 0) == []
  {
  }

  lemma WithinFile(d: Image, w: World, k: nat)
    requires Inv(d, w) && k < |w.s.descs| && w.s.descs[k].fcb != NULL
    ensures 0 <= w.s.descs[k].fcb
    ensures Positions(w.s) ==> w.s.descs[k].position <= EntrySize(d, w.s.descs[k].fcb)
  {
    hide Counted, EntryCluster, EntrySize;
  }

  /** A handle stays what it is until its process closes it or is reaped. */
  lemma HandleStep(d: Image, w: World, op: Op, p: nat, fd: nat)
    requires Inv(d, w) && Enabled(d, w.s, op) && IsOpen(w.s, p, fd) && op != CloseOp(p, fd) && op != DiscardOp(p)
    ensures var s' := Step(d, w, op).s;
            && IsOpen(s', p, fd) && s'.files[p][fd] == w.s.files[p][fd] && FcbOf(s', p, fd) == FcbOf(w.s, p, fd)
  {
    hide Counted, Agree, Delivered, EntryCluster, EntrySize;
    DescriptorStep(d, w, op, w.s.files[p][fd]);
    if op.CloseOp? {
      ClosingIsCounted(d, w, op.p, op.fd);
    }
  }

  lemma {:induction false} HandleKept(d: Image, w: World, run: seq<Op>, p: nat, fd: nat)
    requires Inv(d, w) && RunOk(d, w, run) && IsOpen(w.s, p, fd) && CloseOp(p, fd) !in run && DiscardOp(p) !in run
    ensures var t := Run(d, w, run).s;
            IsOpen(t, p, fd) && t.files[p][fd] == w.s.files[p][fd] && FcbOf(t, p, fd) == FcbOf(w.s, p, fd)
    decreases |run|
  {
    if run != [] {
      hide Inv, Step, Enabled;
      StepInv(d, w, run[0]);
      HandleStep(d, w, run[0], p, fd);
      HandleKept(d, Step(d, w, run[0]), run[1..], p, fd);
    }
  }

  lemma FileOf(d: Image, w: World, p: nat, fd: nat)
    requires Inv(d, w) && IsOpen(w.s, p, fd)
    ensures ClusterOf(w.s, p, fd) == EntryCluster(d, FcbOf(w.s, p, fd)) && w.s.descs[w.s.files[p][fd]].fcb != NULL
  {
    hide Counted, EntryCluster, EntrySize;
  }

  /**
   A child reads on where its parent stopped: after fork and any run in which the child keeps the
   handle, the child's handle is the parent's, on the same file, at the position the parent had at the
   fork plus what was read through the handle since, by whomever; and that was the file from there on.
   */
  lemma ChildReadsOn(d: Image, w: World, parent: nat, child: nat, fd: nat, after: seq<Op>)
    requires Inv(d, w) && Enabled(d, w.s, ForkOp(parent, child)) && IsOpen(w.s, parent, fd) && ClusterSize(d) > 0
    requires Inv(d, Step(d, w, ForkOp(parent, child))) && RunOk(d, Step(d, w, ForkOp(parent, child)), after)
    requires CloseOp(child, fd) !in after && DiscardOp(child) !in after
    requires RunPlain(d, Step(d, w, ForkOp(parent, child)), after, w.s.files[parent][fd])
    ensures var w1, k := Step(d, w, ForkOp(parent, child)), w.s.files[parent][fd];
            var t, data := Run(d, w1, after), AllData(d, w1, after, k);
            && IsOpen(t.s, child, fd) && t.s.files[child][fd] == k && FcbOf(t.s, child, fd) == FcbOf(w.s, parent, fd)
            && ClusterOf(t.s, child, fd) == ClusterOf(w.s, parent, fd)
            && PositionOf(t.s, child, fd) == PositionOf(w.s, parent, fd) + |data|
            && data == FileBytes(d, ClusterOf(w.s, parent, fd), PositionOf(w.s, parent, fd), |data|)
  {
    hide Inv, Step, Enabled, FileBytes, EntryCluster, EntrySize, Data, AllData, RunPlain, Inherited;
    var w1, k := Step(d, w, ForkOp(parent, child)), w.s.files[parent][fd];
    ChildInherits(d, w, parent, child);
    OpenBounds(d, w, parent, fd);
    HandleKept(d, w1, after, child, fd);
    FileOf(d, w1, child, fd);
    FileOf(d, w, parent, fd);
    InterleavedReads(d, w1, after, k);
    RunInv(d, w1, after);
    FileOf(d, Run(d, w1, after), child, fd);
  }

  lemma OpenBounds(d: Image, w: World, p: nat, fd: nat)
    requires Inv(d, w) && IsOpen(w.s, p, fd)
    ensures p < PROCS && fd < FDS
  {
    hide Counted, Agree, Held, Live;
  }

  /**
   Parent reads, forks, and the child reads: the two deliver the file from where the parent began, as
   one read would.
   */
  lemma ParentThenChild(d: Image, w: World, parent: nat, child: nat, fd: nat, m: U32, n: U32)
    requires Inv(d, w) && Enabled(d, w.s, ReadOp(parent, fd, m))
        && Plain(d, w.s, ReadOp(parent, fd, m), w.s.files[parent][fd])
    requires var w1 := Step(d, w, ReadOp(parent, fd, m)); Inv(d, w1) && Enabled(d, w1.s, ForkOp(parent, child))
    requires var w2 := Step(d, Step(d, w, ReadOp(parent, fd, m)), ForkOp(parent, child));
             Inv(d, w2) && Enabled(d, w2.s, ReadOp(child, fd, n))
                 && Plain(d, w2.s, ReadOp(child, fd, n), w.s.files[parent][fd])
    ensures var k := w.s.files[parent][fd];
            var w2 := Step(d, Step(d, w, ReadOp(parent, fd, m)), ForkOp(parent, child));
            var both := Data(d, w.s, ReadOp(parent, fd, m), k) + Data(d, w2.s, ReadOp(child, fd, n), k);
            && w2.s.files[child][fd] == k
            && both == FileBytes(d, ClusterOf(w.s, parent, fd), PositionOf(w.s, parent, fd), |both|)
  {
    hide Inv, Step, FileBytes, EntryCluster, EntrySize, Data, Inherited, Plain, ClusterSize;
    var k := w.s.files[parent][fd];
    var w1 := Step(d, w, ReadOp(parent, fd, m));
    var w2 := Step(d, w1, ForkOp(parent, child));
    FileOf(d, w, parent, fd);
    OpenBounds(d, w, parent, fd);
    HandleStep(d, w, ReadOp(parent, fd, m), parent, fd);
    PositionStep(d, w, ReadOp(parent, fd, m), k);
    FileOf(d, w1, parent, fd);
    ChildInherits(d, w1, parent, child);
    PositionStep(d, w2, ReadOp(child, fd, n), k);
    Joined(d, ClusterOf(w.s, parent, fd), PositionOf(w.s, parent, fd), Data(d, w.s, ReadOp(parent, fd, m), k),
           Data(d, w2.s, ReadOp(child, fd, n), k));
  }

  /** The tables as init_fs leaves them, with the handle arrays of the zeroed process table. */
  function StartWorld(d: Image, descs: nat): World {
    World(Tables(seq(RootEntryCount(d), _ => Fcb(0, 0, 0, 0)), seq(descs, _ => FileDesc(NULL, 0, 0)),
        seq(PROCS, _ => EmptyRow())),
          seq(RootEntryCount(d), _ => 0))
  }

  lemma {:induction false} StartInv(d: Image, w: World, descs: nat)
    requires w == StartWorld(d, descs)
    ensures Inv(d, w) && Positions(w.s)
  {
    hide EntryCluster, EntrySize;
    forall i | 0 <= i < |w.gone| ensures w.s.fcbs[i].count == SumRefers(w.s.files, w.s.descs, i) + w.gone[i] {
      AllEmpty(w.s.files, w.s.descs, i);
    }
  }

  lemma {:induction false} AllEmpty(files: seq<seq<int>>, descs: seq<FileDesc>, i: int)
    requires forall p :: 0 <= p < |files| ==> files[p] == EmptyRow()
    ensures SumRefers(files, descs, i) == 0
  {
    if files != [] {
      NoneRefer(files[0], descs, i);
      AllEmpty(files[1..], descs, i);
    }
  }

  /**
   A read of size EntrySize of entry i through the handle is accepted and delivers the first bytes of
   the entry's chain, all of them.
   */
  ghost predicate DeliversEntry(d: Image, s: Tables, p: nat, fd: int, i: nat) {
    && fd >= 0 && IsOpen(s, p, fd) && ClusterSize(d) > 0
    && var size := EntrySize(d, i);
       && SizeOf(s, p, fd) == size && ClusterOf(s, p, fd) == EntryCluster(d, i) && PositionOf(s, p, fd) == 0
       && !Refused(s, p, fd, size) && Reaches(d, EntryCluster(d, i), 0) && !CopyWraps(d, 0, size)
       && !LoopWraps(d, EntryCluster(d, i), 0, size)
       && Delivered(d, s, p, fd, size) == ReadLength(d, EntryCluster(d, i), 0, size) == size
  }

  /**
   Opening entry i, whose chain covers its size, and reading the whole size delivers all of it, if and
   only if its clusters hold less than 4 GB; those of a chain that ends in the image do.
   */
  lemma OpenThenRead(d: Image, w: World, p: nat, i: U32)
    requires Inv(d, w) && Enabled(d, w.s, OpenOp(p, i)) && i != NOT_FOUND && Open(d, w.s, p, i).0 != NULL
        && ClusterSize(d) > 0
    requires Length(d, EntryCluster(d, i), ClustersFor(d, EntrySize(d, i))) == ClustersFor(d, EntrySize(d, i))
    ensures var (fd, s) := Open(d, w.s, p, i);
            DeliversEntry(d, s, p, fd, i) <==> Times(ClustersFor(d, EntrySize(d, i)), ClusterSize(d)) < U32_LIMIT
  {
    hide Open, EntrySize, EntryCluster, Counted, Agree, Held, Live;
    OpenedIs(d, w, p, i);
    var (fd, s) := Open(d, w.s, p, i);
    ReadsWhole(d, s, p, fd, i);
  }

  lemma ReadsWhole(d: Image, s: Tables, p: nat, fd: nat, i: nat)
    requires IsOpen(s, p, fd) && FcbOf(s, p, fd) == i && Agrees(d, s.fcbs[i], i) && PositionOf(s, p, fd) == 0
        && ClusterSize(d) > 0
    requires Length(d, EntryCluster(d, i), ClustersFor(d, EntrySize(d, i))) == ClustersFor(d, EntrySize(d, i))
    ensures DeliversEntry(d, s, p, fd, i) <==> Times(ClustersFor(d, EntrySize(d, i)), ClusterSize(d)) < U32_LIMIT
  {
    hide EntrySize, EntryCluster, Length, Reaches, LoopWraps, ClusterSize, ReadLength, ClustersFor, Times;
    var c, size := EntryCluster(d, i), EntrySize(d, i);
    CoveredReads(d, c, 0, size);
    CoveredAvailable(d, c, size);
    assert 0 % ClusterSize(d) == 0;
  }

  lemma CoveredAvailable(d: Image, c: nat, size: nat)
    requires ClusterSize(d) > 0 && Length(d, c, ClustersFor(d, size)) == ClustersFor(d, size)
    ensures LoopWraps(d, c, 0, size) <==> Times(ClustersFor(d, size), ClusterSize(d)) >= U32_LIMIT
  {
    hide ClusterSize, Times, Length, ClustersFor;
    assert 0 + size == size;
  }

  lemma OpenedIs(d: Image, w: World, p: nat, i: U32)
    requires Inv(d, w) && Enabled(d, w.s, OpenOp(p, i)) && i != NOT_FOUND && Open(d, w.s, p, i).0 != NULL
    ensures var (fd, s) := Open(d, w.s, p, i);
            && fd >= 0 && IsOpen(s, p, fd) && FcbOf(s, p, fd) == i && Agrees(d, s.fcbs[i], i)
            && s.descs[s.files[p][fd]].position == 0
  {
    hide EntrySize, EntryCluster;
    CountsNonNegative(w);
  }

  // What open and close do to the tables, in terms of handles

  /** Every handle but fd of p is as before: on the same descriptor, file and position. */
  ghost predicate OtherHandles(s: Tables, s': Tables, p: nat, fd: nat) {
    && |s'.files| == |s.files| && p < |s.files| && |s'.files[p]| == |s.files[p]|
    && (forall q, h :: 0 <= q < |s.files| && 0 <= h < |s.files[q]| && (q != p || h != fd) ==>
          |s'.files[q]| == |s.files[q]| && s'.files[q][h] == s.files[q][h])
    && (forall q, h :: 0 <= q < |s.files| && 0 <= h < |s.files[q]| && (q != p || h != fd) && IsOpen(s, q, h) ==>
          SameHandle(s, q, s', q, h))
  }

  /** The count of FCB i changes by n, and that of no other. */
  ghost predicate CountMoves(fcbs: seq<Fcb>, fcbs': seq<Fcb>, i: nat, n: int) {
    |fcbs'| == |fcbs| && forall j :: 0 <= j < |fcbs| ==> fcbs'[j].count == fcbs[j].count + if j == i then n else 0
  }

  /**
   A successful open: fd was the lowest free handle of p and now is open at the start of entry i, through
   the lowest unused descriptor, whose count is 1; FCB i has one handle more.
   */
  ghost predicate OpensHandle(d: Image, s: Tables, s': Tables, p: nat, fd: int, i: nat) {
    && p < |s.files| && 0 <= fd < |s.files[p]| && s.files[p][fd] == NULL
    && (forall h :: 0 <= h < fd ==> s.files[p][h] != NULL)
    && IsOpen(s', p, fd) && FcbOf(s', p, fd) == i && PositionOf(s', p, fd) == 0
    && SizeOf(s', p, fd) == EntrySize(d, i) && ClusterOf(s', p, fd) == EntryCluster(d, i)
    && OtherHandles(s, s', p, fd) && CountMoves(s.fcbs, s'.fcbs, i, 1)
    && var k := s'.files[p][fd];
       && |s'.descs| == |s.descs| && k < |s.descs| && s.descs[k].fcb == NULL && s'.descs[k].count == 1
       && (forall j :: 0 <= j < k ==> s.descs[j].fcb != NULL)
       && forall j :: 0 <= j < |s.descs| && j != k ==> s'.descs[j] == s.descs[j]
  }

  lemma OpenOutcome(d: Image, w: World, p: nat, i: U32)
    requires Inv(d, w) && Enabled(d, w.s, OpenOp(p, i))
    ensures var (fd, s') := Open(d, w.s, p, i);
            if fd == NULL then s' == w.s else i != NOT_FOUND && OpensHandle(d, w.s, s', p, fd, i)
  {
    var (fd, s') := Open(d, w.s, p, i);
    if fd != NULL {
      OpenedIs(d, w, p, i);
      OpenKeepsHandles(d, w, p, i);
    }
  }

  lemma OpenKeepsHandles(d: Image, w: World, p: nat, i: U32)
    requires Inv(d, w) && Enabled(d, w.s, OpenOp(p, i)) && i != NOT_FOUND && Open(d, w.s, p, i).0 != NULL
    ensures var (fd, s') := Open(d, w.s, p, i);
            fd >= 0 && OtherHandles(w.s, s', p, fd) && CountMoves(w.s.fcbs, s'.fcbs, i, 1)
  {
    hide EntrySize, EntryCluster, Counted;
  }

  /** A close: the handle is free, its FCB has one handle less, and the descriptors are as before. */
  ghost predicate ClosesHandle(s: Tables, s': Tables, p: nat, fd: nat) {
    && IsOpen(s, p, fd) && |s'.files| == |s.files| && |s'.files[p]| == |s.files[p]| && s'.files[p][fd] == NULL
    && OtherHandles(s, s', p, fd) && CountMoves(s.fcbs, s'.fcbs, FcbOf(s, p, fd), -1) && s'.descs == s.descs
  }

  lemma CloseOutcome(d: Image, w: World, p: nat, fd: nat)
    requires Inv(d, w) && IsOpen(w.s, p, fd)
    ensures ClosesHandle(w.s, Step(d, w, CloseOp(p, fd)).s, p, fd)
  {
    hide Counted, Agree;
    assert w.s.descs[w.s.files[p][fd]].count >= 1;
  }

  // Loading a file

  ghost predicate SameCounts(fcbs: seq<Fcb>, fcbs': seq<Fcb>) {
    |fcbs'| == |fcbs| && forall i :: 0 <= i < |fcbs| ==> fcbs'[i].count == fcbs[i].count
  }

  /** Reading all of entry i through a handle opened from s, and closing it, leaves handles and counts as in s. */
  ghost predicate LoadsEntry(d: Image, s: Tables, gone: seq<nat>, p: nat, fd: int, s1: Tables, i: nat) {
    && DeliversEntry(d, s1, p, fd, i)
    && var s2 := Read(d, s1, p, fd, EntrySize(d, i));
       && IsOpen(s2, p, fd) && s2.fcbs[FcbOf(s2, p, fd)].count > 0
       && var s3 := Close(s2, p, fd);
          Inv(d, World(s3, gone)) && s3.files == s.files && SameCounts(s.fcbs, s3.fcbs)
  }

  lemma OpenReadClose(d: Image, w: World, p: nat, i: U32)
    requires Inv(d, w) && Enabled(d, w.s, OpenOp(p, i)) && i != NOT_FOUND && Open(d, w.s, p, i).0 != NULL
        && ClusterSize(d) > 0
    requires Length(d, EntryCluster(d, i), ClustersFor(d, EntrySize(d, i))) == ClustersFor(d, EntrySize(d, i))
    requires Times(ClustersFor(d, EntrySize(d, i)), ClusterSize(d)) < U32_LIMIT
    ensures LoadsEntry(d, w.s, w.gone, p, Open(d, w.s, p, i).0, Open(d, w.s, p, i).1, i)
  {
    hide Counted, Agree, Held, Live, EntrySize, EntryCluster, DeliversEntry, Delivered, GetFcb, Length, ClustersFor,
         ClusterSize, Times;
    OpenThenRead(d, w, p, i);
    var (fd, s1) := Open(d, w.s, p, i);
    OpenedIs(d, w, p, i);
    StepInv(d, w, OpenOp(p, i));
    var w1 := World(s1, w.gone);
    CanReadEntry(d, s1, p, fd, i);
    StepInv(d, w1, ReadOp(p, fd, EntrySize(d, i)));
    var s2 := Read(d, s1, p, fd, EntrySize(d, i));
    ReadKeepsHandles(d, s1, p, fd, EntrySize(d, i));
    var w2 := World(s2, w.gone);
    ClosingIsCounted(d, w2, p, fd);
    StepInv(d, w2, CloseOp(p, fd));
    OpenCloseSame(d, w.s, p, i, s2);
  }

  lemma CanReadEntry(d: Image, s: Tables, p: nat, fd: int, i: nat)
    requires DeliversEntry(d, s, p, fd, i)
    ensures Enabled(d, s, ReadOp(p, fd, EntrySize(d, i)))
  {
  }

  lemma ReadKeepsHandles(d: Image, s: Tables, p: nat, fd: nat, size: U32)
    requires IsOpen(s, p, fd) && ClusterSize(d) > 0
    ensures var s' := Read(d, s, p, fd, size);
            && s'.files == s.files && s'.fcbs == s.fcbs && IsOpen(s', p, fd) && FcbOf(s', p, fd) == FcbOf(s, p, fd)
            && s'.descs[s.files[p][fd]].count == s.descs[s.files[p][fd]].count
  {
    hide Delivered;
  }

  lemma OpenCloseSame(d: Image, s: Tables, p: nat, i: U32, s2: Tables)
    requires p < |s.files| && i != NOT_FOUND && i < |s.fcbs| && Open(d, s, p, i).0 != NULL
    requires var (fd, s1) := Open(d, s, p, i);
             && fd >= 0 && s2.files == s1.files && s2.fcbs == s1.fcbs && IsOpen(s2, p, fd) && FcbOf(s2, p, fd) == i
    ensures var s3 := Close(s2, p, Open(d, s, p, i).0); s3.files == s.files && SameCounts(s.fcbs, s3.fcbs)
  {
    hide EntrySize, EntryCluster;
    var fd := Open(d, s, p, i).0;
    var s3 := Close(s2, p, fd);
    assert s3.files[p] == s.files[p];
  }

  // A read past the end that the check lets through

  /**
   After one byte was read through handle 0 of process p, a read of 2^32 - 1 bytes is accepted, counts
   as read in full, and leaves position 0.
   */
  ghost predicate WrapsNow(d: Image, w: World, p: nat) {
    && Inv(d, w) && Positions(w.s) && IsOpen(w.s, p, 0) && PositionOf(w.s, p, 0) == 1
    && Enabled(d, w.s, ReadOp(p, 0, 0xffff_ffff))
    && !Refused(w.s, p, 0, 0xffff_ffff) && PositionOf(w.s, p, 0) + 0xffff_ffff > SizeOf(w.s, p, 0)
    && Delivered(d, w.s, p, 0, 0xffff_ffff) == 0xffff_ffff
    && var s' := Step(d, w, ReadOp(p, 0, 0xffff_ffff)).s; IsOpen(s', p, 0) && PositionOf(s', p, 0) == 0
  }

  /** Such a state is two calls from the start: open a file that is not empty, and read one byte. */
  lemma ReadCheckWrapsFromStart(d: Image, descs: nat, p: nat, i: U32)
    requires descs > 0 && p < PROCS && i < RootEntryCount(d) && EntrySize(d, i) >= 1
    requires EntryCluster(d, i) < END_OF_CHAIN && ClusterSize(d) > 1
    ensures Inv(d, StartWorld(d, descs)) && RunOk(d, StartWorld(d, descs), [OpenOp(p, i), ReadOp(p, 0, 1)])
    ensures WrapsNow(d, Run(d, StartWorld(d, descs), [OpenOp(p, i), ReadOp(p, 0, 1)]), p)
  {
    hide Inv, Step, EntrySize, EntryCluster, WrapsNow;
    var w := StartWorld(d, descs);
    var run := [OpenOp(p, i), ReadOp(p, 0, 1)];
    StartInv(d, w, descs);
    var w1 := FirstOpen(d, w, descs, p, i);
    var w2 := FirstByte(d, w1, p, i);
    NextOverruns(d, w2, p, i);
    assert run[1..] == [ReadOp(p, 0, 1)] && run[1..][1..] == [];
    RunNone(d, w2);
  }

  lemma RunNone(d: Image, w: World)
    requires Inv(d, w)
    ensures RunOk(d, w, []) && Run(d, w, []) == w
  {
  }

  /** Handle 0 of process p reads entry i from the given position. */
  ghost predicate Reading(d: Image, w: World, p: nat, i: nat, position: nat) {
    && Inv(d, w) && Positions(w.s) && IsOpen(w.s, p, 0) && FcbOf(w.s, p, 0) == i && PositionOf(w.s, p, 0) == position
    && SizeOf(w.s, p, 0) == EntrySize(d, i) && ClusterOf(w.s, p, 0) == EntryCluster(d, i)
  }

  lemma FirstOpen(d: Image, w: World, descs: nat, p: nat, i: U32) returns (w1: World)
    requires descs > 0 && p < PROCS && i < RootEntryCount(d) && w == StartWorld(d, descs) && Inv(d, w) && Positions(w.s)
    ensures Enabled(d, w.s, OpenOp(p, i)) && w1 == Step(d, w, OpenOp(p, i)) && Reading(d, w1, p, i, 0)
  {
    hide EntrySize, EntryCluster, Inv, Positions;
    w1 := World(Open(d, w.s, p, i).1, w.gone);
    StepInv(d, w, OpenOp(p, i));
    OthersKeepPositions(d, w, OpenOp(p, i));
    assert FreeFd(EmptyRow()) == 0;
    assert FreeDesc(w.s.descs) == 0;
  }

  lemma FirstByte(d: Image, w: World, p: nat, i: nat) returns (w2: World)
    requires Reading(d, w, p, i, 0) && EntrySize(d, i) >= 1 && EntryCluster(d, i) < END_OF_CHAIN && ClusterSize(d) > 1
    ensures Enabled(d, w.s, ReadOp(p, 0, 1)) && w2 == Step(d, w, ReadOp(p, 0, 1)) && Reading(d, w2, p, i, 1)
  {
    hide EntrySize, EntryCluster, Inv, Positions, ClusterSize, ReadLength, LoopWraps;
    OneByte(d, EntryCluster(d, i));
    w2 := Step(d, w, ReadOp(p, 0, 1));
    StepInv(d, w, ReadOp(p, 0, 1));
    NoWrapKeepsPositions(d, w, ReadOp(p, 0, 1));
  }

  lemma OneByte(d: Image, c: nat)
    requires ClusterSize(d) > 1 && c < END_OF_CHAIN
    ensures ReadLength(d, c, 0, 1) == 1 && !LoopWraps(d, c, 0, 1) && !CopyWraps(d, 0, 1) && Reaches(d, c, 0)
        && Reaches(d, c, 1)
    ensures CopyWraps(d, 1, 0xffff_ffff)
  {
    hide ClusterSize, Length, ClustersFor, Times;
    var cs := ClusterSize(d);
    SmallCluster(d);
    DivUnique(0, cs, 0, 0);
    DivUnique(1, cs, 0, 1);
    OneCluster(d, c);
  }

  lemma OneCluster(d: Image, c: nat)
    requires ClusterSize(d) > 1 && c < END_OF_CHAIN
    ensures Available(d, c, 0, 1) == ClusterSize(d)
  {
    hide ClusterSize, Times;
    var cs := ClusterSize(d);
    DivUnique(cs, cs, 1, 0);
    assert ClustersFor(d, 0 + 1) == 1;
    assert Length(d, c, 1) == 1;
    TimesZero(cs);
    TimesNext(0, cs);
  }

  lemma NextOverruns(d: Image, w: World, p: nat, i: nat)
    requires Reading(d, w, p, i, 1) && EntryCluster(d, i) < END_OF_CHAIN && ClusterSize(d) > 1
    ensures WrapsNow(d, w, p)
  {
    hide EntrySize, EntryCluster, Inv, Positions, ClusterSize, ReadLength, LoopWraps, CopyWraps, Reaches;
    OneByte(d, EntryCluster(d, i));
    StepInv(d, w, ReadOp(p, 0, 0xffff_ffff));
  }
}
