/** The intrusive lists of list.c: a head with a tail pointer, processes linked through their one next field. */
module Lists {
  import opened Words
  import opened Machine

  /**
   struct Process, without its open files, trap frame and saved context. Ghost fields name the call it
   is in and its pages.
   */
  class Process {
    const slot: nat
    var next: Process?
    var pid: int
    var wait: int
    var state: PState
    ghost var call: Call
    var stack: Word
    var pageMap: Word
    ghost var pages: Pages

    constructor (slot: nat)
      ensures this.slot == slot && next == null && pid == 0 && wait == 0 && state == Unused && call == User
          && pages == NoPages
    {
      this.slot := slot;
      next := null;
      pid, wait, state, stack, pageMap := 0, 0, Unused, 0, 0;
      call, pages := User, NoPages;
    }
  }

  ghost predicate NoRepeat(items: seq<Process>) {
    forall j, k :: 0 <= j < k < |items| ==> items[j] != items[k]
  }

  /** Index of the first item that waits for w, or the length. */
  ghost function FirstWaiting(items: seq<Process>, w: int): (k: nat)
    reads items
    ensures k <= |items| && (k < |items| ==> items[k].wait == w)
    ensures forall j :: 0 <= j < k ==> items[j].wait != w
  {
    if items == [] || items[0].wait == w then 0 else 1 + FirstWaiting(items[1..], w)
  }

  lemma {:induction false} FirstWaitingIs(items: seq<Process>, w: int, k: nat)
    requires k <= |items| && (k < |items| ==> items[k].wait == w)
    requires forall j :: 0 <= j < k ==> items[j].wait != w
    ensures FirstWaiting(items, w) == k
  {
    if k > 0 {
      FirstWaitingIs(items[1..], w, k - 1);
    }
  }

  ghost function Without(items: seq<Process>, k: nat): seq<Process>
    requires k < |items|
  {
    items[..k] + items[k + 1..]
  }

  class HeadList {
    var next: Process?
    var tail: Process?
    ghost var items: seq<Process>

    /** The chain from next visits the items in order; tail is the last of them and never the head itself. */
    ghost predicate Valid()
      reads this, items
    {
      && NoRepeat(items)
      && next == At(0) && tail == (if items == [] then null else items[|items| - 1])
      && forall k :: 0 <= k < |items| ==> items[k].next == At(k + 1)
    }

    ghost function At(k: nat): Process?
      reads this
    {
      if k < |items| then items[k] else null
    }

    constructor ()
      ensures Valid() && items == []
    {
      next, tail, items := null, null, [];
    }

    /** Only the links matter: other fields of the items may change. */
    twostate lemma StillValid()
      requires old(Valid()) && unchanged(this) && forall p :: p in items ==> p.next == old(p.next)
      ensures Valid()
    {
      forall k | 0 <= k < |items| ensures items[k].next == At(k + 1) {
        assert items[k] in items;
      }
    }

    predicate IsEmpty()
      reads this
    {
      next == null
    }

    method AppendTail(item: Process)
      requires Valid() && item !in items
      modifies this, item`next, items`next
      ensures Valid() && items == old(items) + [item]
    {
      item.next := null;
      if IsEmpty() {
        next := item;
        tail := item;
      } else {
        tail.next := item;
        tail := item;
      }
      items := items + [item];
    }

    method RemoveHead() returns (item: Process?)
      requires Valid()
      modifies this
      ensures Valid()
      ensures old(items) == [] ==> item == null && items == []
      ensures old(items) != [] ==> item == old(items)[0] && items == old(items)[1..]
    {
      if IsEmpty() {
        return null;
      }
      item := next;
      next := item.next;
      if next == null {
        tail := null;
      }
      items := items[1..];
    }

    /** Take out the first item that waits for w. The head plays the node before the first one; here that is null. */
    method Remove(w: int) returns (item: Process?)
      requires Valid()
      modifies this, items`next
      ensures Valid()
      ensures var k := old(FirstWaiting(items, w));
              if k < |old(items)| then item == old(items)[k] && items == Without(old(items), k)
              else item == null && items == old(items)
    {
      var current, prev: Process? := next, null;
      ghost var k := 0;
      while current != null && current.wait != w
        invariant 0 <= k <= |items|
        invariant forall j :: 0 <= j < k ==> items[j].wait != w
        invariant current == At(k) && prev == (if k == 0 then null else items[k - 1])
        decreases |items| - k
      {
        prev := current;
        current := current.next;
        k := k + 1;
      }
      FirstWaitingIs(items, w, k);
      item := current;
      if current != null {
        Unlink(prev, current, k);
      }
    }

    /** Unlink current, which follows prev; the tail moves back to prev, which is then not the head. */
    method Unlink(prev: Process?, current: Process, ghost k: nat)
      requires Valid() && k < |items| && current == items[k] && prev == (if k == 0 then null else items[k - 1])
      modifies this, items`next
      ensures Valid() && items == Without(old(items), k)
      ensures forall p :: p in old(items) && p != prev ==> p.next == old(p.next)
    {
      if prev == null {
        next := current.next;
      } else {
        prev.next := current.next;
      }
      if next == null {
        tail := null;
      } else if current.next == null {
        assert prev != null;
        tail := prev;
      }
      items := Without(items, k);
      assert items == old(items[..k]) + old(items[k + 1..]);
    }
  }
}
