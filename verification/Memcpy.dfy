/**
 memcpy, memmove and memcpy_fast of utils.s: four bytes at a time, then one; backwards when the
 destination overlaps behind.
 */
module Memcpy {
  import opened Words

  /** Byte a once bytes lo to hi of the destination are copied. */
  function MovedByte(m: seq<Byte>, dst: nat, src: nat, lo: nat, hi: nat, a: nat): Byte
    requires dst + hi <= |m| && src + hi <= |m| && a < |m|
  {
    if dst + lo <= a < dst + hi then m[src + (a - dst)] else m[a]
  }

  /** Memory after a correct copy: the destination holds the old source bytes and nothing else changed. */
  function Moved(m: seq<Byte>, dst: nat, src: nat, size: nat): seq<Byte>
    requires dst + size <= |m| && src + size <= |m|
  {
    seq<Byte>(|m|, a requires 0 <= a < |m| => MovedByte(m, dst, src, 0, size, a))
  }

  /** The branch that copies backwards. */
  predicate Backwards(dst: nat, src: nat, size: nat) { src < dst < src + size }

  /** ldr: the four bytes at an address, which must lie in the range given. */
  method Load4(mem: array<Byte>, a: nat, ghost from: nat, ghost to: nat) returns (w: seq<Byte>)
    requires from <= a && a + 4 <= to <= mem.Length
    ensures w == mem[a..a + 4]
  {
    w := mem[a..a + 4];
  }

  method Store4(mem: array<Byte>, a: nat, w: seq<Byte>)
    requires |w| == 4 && a + 4 <= mem.Length
    modifies mem
    ensures mem[..] == old(mem[..a]) + w + old(mem[a + 4..])
  {
    mem[a], mem[a + 1], mem[a + 2], mem[a + 3] := w[0], w[1], w[2], w[3];
    assert mem[..] == old(mem[..a]) + w + old(mem[a + 4..]);
  }

  /** Bytes lo to hi of the destination hold the old source bytes; everything else is as it was. */
  ghost predicate Copied(before: seq<Byte>, after: seq<Byte>, dst: nat, src: nat, lo: nat, hi: nat) {
    && |after| == |before| && src + hi <= |before| && dst + hi <= |before|
    && forall a :: 0 <= a < |after| ==> after[a] == MovedByte(before, dst, src, lo, hi, a)
  }

  lemma CopiedAll(before: seq<Byte>, after: seq<Byte>, dst: nat, src: nat, size: nat)
    requires Copied(before, after, dst, src, 0, size)
    ensures after == Moved(before, dst, src, size)
  {
  }

  lemma CopiedNone(before: seq<Byte>, dst: nat, src: nat)
    requires dst <= |before| && src <= |before|
    ensures Copied(before, before, dst, src, 0, 0)
  {
  }

  /** One forward turn of n bytes: what it loads is still the old source. */
  lemma ForwardTurn(before: seq<Byte>, now: seq<Byte>, after: seq<Byte>, dst: nat, src: nat, size: nat, k: nat, n: nat)
    requires Copied(before, now, dst, src, 0, k) && !Backwards(dst, src, size) && k + n <= size
    requires dst + size <= |before| && src + size <= |before|
    requires after == now[..dst + k] + now[src + k..src + k + n] + now[dst + k + n..]
    ensures Copied(before, after, dst, src, 0, k + n)
  {
    forall a | 0 <= a < |after| ensures after[a] == MovedByte(before, dst, src, 0, k + n, a) {
      assert now[a] == MovedByte(before, dst, src, 0, k, a);
      if dst + k <= a < dst + k + n {
        var b := src + (a - dst);
        assert after[a] == now[b] == MovedByte(before, dst, src, 0, k, b);
      }
    }
  }

  /** One backward turn of n bytes: what it loads is still the old source. */
  lemma BackwardTurn(before: seq<Byte>, now: seq<Byte>, after: seq<Byte>, dst: nat, src: nat, k: nat, hi: nat, n: nat)
    requires src < dst && n <= k <= hi && Copied(before, now, dst, src, k, hi)
    requires after == now[..dst + k - n] + now[src + k - n..src + k] + now[dst + k..]
    ensures Copied(before, after, dst, src, k - n, hi)
  {
    forall a | 0 <= a < |after| ensures after[a] == MovedByte(before, dst, src, k - n, hi, a) {
      assert now[a] == MovedByte(before, dst, src, k, hi, a);
      if dst + k - n <= a < dst + k {
        var b := src + (a - dst);
        assert after[a] == now[b] == MovedByte(before, dst, src, k, hi, b);
      }
    }
  }

  /** ldr and str of one word in the forward direction; the load stays inside the source. */
  method CopyWord(mem: array<Byte>, x0: nat, x1: nat, ghost m: seq<Byte>, ghost dst: nat, ghost src: nat,
      ghost size: nat, ghost k: nat)
    requires !Backwards(dst, src, size) && dst + size <= mem.Length && src + size <= mem.Length
    requires Copied(m, mem[..], dst, src, 0, k) && k + 4 <= size && x0 == dst + k && x1 == src + k
    modifies mem
    ensures Copied(m, mem[..], dst, src, 0, k + 4)
  {
    hide Copied;
    ghost var now := mem[..];
    var w := Load4(mem, x1, src, src + size);
    Store4(mem, x0, w);
    assert mem[..] == now[..x0] + now[x1..x1 + 4] + now[x0 + 4..];
    CopiedLength(m, now, dst, src, k);
    ForwardTurn(m, now, mem[..], dst, src, size, k, 4);
  }

  method CopyByte(mem: array<Byte>, x0: nat, x1: nat, ghost m: seq<Byte>, ghost dst: nat, ghost src: nat,
      ghost size: nat, ghost k: nat)
    requires !Backwards(dst, src, size) && dst + size <= mem.Length && src + size <= mem.Length
    requires Copied(m, mem[..], dst, src, 0, k) && k + 1 <= size && x0 == dst + k && x1 == src + k
    modifies mem
    ensures Copied(m, mem[..], dst, src, 0, k + 1)
  {
    hide Copied;
    ghost var now := mem[..];
    mem[x0] := mem[x1];
    assert mem[..] == now[..x0] + now[x1..x1 + 1] + now[x0 + 1..];
    CopiedLength(m, now, dst, src, k);
    ForwardTurn(m, now, mem[..], dst, src, size, k, 1);
  }

  lemma CopiedLength(before: seq<Byte>, after: seq<Byte>, dst: nat, src: nat, k: nat)
    requires Copied(before, after, dst, src, 0, k)
    ensures |after| == |before|
  {
  }

  /** The forward loops. Overlaps closer than four bytes are copied right too. */
  method CopyForward(mem: array<Byte>, dst: nat, src: nat, size: nat)
    requires !Backwards(dst, src, size) && dst + size <= mem.Length && src + size <= mem.Length
    modifies mem
    ensures mem[..] == Moved(old(mem[..]), dst, src, size)
  {
    ghost var m := mem[..];
    CopiedNone(m, dst, src);
    hide Copied, Moved, MovedByte;
    var x0, x1, x2 := dst, src, size;
    while x2 >= 4
      invariant 0 <= x2 <= size && x0 == dst + (size - x2) && x1 == src + (size - x2)
      invariant Copied(m, mem[..], dst, src, 0, size - x2)
    {
      CopyWord(mem, x0, x1, m, dst, src, size, size - x2);
      x0, x1, x2 := x0 + 4, x1 + 4, x2 - 4;
    }
    while x2 > 0
      invariant 0 <= x2 <= size && x0 == dst + (size - x2) && x1 == src + (size - x2)
      invariant Copied(m, mem[..], dst, src, 0, size - x2)
    {
      CopyByte(mem, x0, x1, m, dst, src, size, size - x2);
      x0, x1, x2 := x0 + 1, x1 + 1, x2 - 1;
    }
    CopiedAll(m, mem[..], dst, src, size);
  }

  // The backward direction

  /**
   The offsets of the destination that the backward loops write. Words are stored from the last byte
   upwards, so the first word spills three bytes past the end, and the last one stops three bytes
   before the bytes that are copied one at a time.
   */
  predicate Written(size: nat, offset: int) {
    0 <= offset < size % 4 || (size >= 4 && size % 4 + 3 <= offset < size + 3)
  }

  /** The memory a copy touches: three bytes more than the ranges when words are copied backwards. */
  predicate Room(length: nat, dst: nat, src: nat, size: nat) {
    && dst + size <= length && src + size <= length
    && (Backwards(dst, src, size) && size >= 4 ==> dst + size + 3 <= length)
  }

  function BackwardByte(m: seq<Byte>, dst: nat, src: nat, size: nat, a: nat): Byte
    requires Backwards(dst, src, size) && Room(|m|, dst, src, size) && a < |m|
  {
    if Written(size, a - dst) then m[src + (a - dst)] else m[a]
  }

  /** Memory after the backward loops. */
  function MovedBackward(m: seq<Byte>, dst: nat, src: nat, size: nat): seq<Byte>
    requires Backwards(dst, src, size) && Room(|m|, dst, src, size)
  {
    seq<Byte>(|m|, a requires 0 <= a < |m| => BackwardByte(m, dst, src, size, a))
  }

  /** Memory after memcpy. */
  function CopyResult(m: seq<Byte>, dst: nat, src: nat, size: nat): seq<Byte>
    requires Room(|m|, dst, src, size)
  {
    if Backwards(dst, src, size) then MovedBackward(m, dst, src, size) else Moved(m, dst, src, size)
  }

  /** The word loop wrote offsets r + 3 to size + 3, the byte loop then offsets 0 to r. */
  lemma BothLoops(m: seq<Byte>, words: seq<Byte>, bytes: seq<Byte>, dst: nat, src: nat, size: nat)
    requires Backwards(dst, src, size) && Room(|m|, dst, src, size)
    requires if size < 4 then words == m else Copied(m, words, dst, src, size % 4 + 3, size + 3)
    requires Copied(words, bytes, dst, src, 0, size % 4)
    ensures bytes == MovedBackward(m, dst, src, size)
  {
    forall a | 0 <= a < |m| ensures bytes[a] == BackwardByte(m, dst, src, size, a) {
      assert bytes[a] == MovedByte(words, dst, src, 0, size % 4, a);
      if dst <= a < dst + size % 4 {
        assert size >= 4 ==> words[src + (a - dst)] == MovedByte(m, dst, src, size % 4 + 3, size + 3, src + (a - dst));
      } else {
        assert size >= 4 ==> words[a] == MovedByte(m, dst, src, size % 4 + 3, size + 3, a);
      }
    }
  }

  /** The loop over words, from the last byte of the ranges upwards. */
  method CopyWordsBackward(mem: array<Byte>, dst: nat, src: nat, size: nat)
    requires Backwards(dst, src, size) && size >= 4 && Room(mem.Length, dst, src, size)
    modifies mem
    ensures Copied(old(mem[..]), mem[..], dst, src, size % 4 + 3, size + 3)
  {
    ghost var m := mem[..];
    var x0, x1, x2 := dst + size - 1, src + size - 1, size;
    while x2 >= 4
      invariant 0 <= x2 <= size && x2 % 4 == size % 4 && x0 == dst + x2 - 1 && x1 == src + x2 - 1
      invariant Copied(m, mem[..], dst, src, x2 + 3, size + 3)
    {
      ghost var now := mem[..];
      var w := Load4(mem, x1, 0, mem.Length);
      Store4(mem, x0, w);
      BackwardTurn(m, now, mem[..], dst, src, x2 + 3, size + 3, 4);
      x0, x1, x2 := x0 - 4, x1 - 4, x2 - 4;
    }
  }

  /** The loop over the bytes that are left. */
  method CopyBytesBackward(mem: array<Byte>, dst: nat, src: nat, n: nat)
    requires src < dst && dst + n <= mem.Length
    modifies mem
    ensures Copied(old(mem[..]), mem[..], dst, src, 0, n)
  {
    ghost var m := mem[..];
    var x0, x1, x2 := dst + n - 1, src + n - 1, n;
    while x2 > 0
      invariant 0 <= x2 <= n && x0 == dst + x2 - 1 && x1 == src + x2 - 1
      invariant Copied(m, mem[..], dst, src, x2, n)
    {
      ghost var now := mem[..];
      mem[x0] := mem[x1];
      assert mem[..] == now[..x0] + now[x1..x1 + 1] + now[x0 + 1..];
      BackwardTurn(m, now, mem[..], dst, src, x2, n, 1);
      x0, x1, x2 := x0 - 1, x1 - 1, x2 - 1;
    }
  }

  /** The backward loops, byte by byte of the memory they leave. */
  method CopyBackward(mem: array<Byte>, dst: nat, src: nat, size: nat)
    requires Backwards(dst, src, size) && Room(mem.Length, dst, src, size)
    modifies mem
    ensures mem[..] == MovedBackward(old(mem[..]), dst, src, size)
  {
    hide Copied, MovedBackward;
    ghost var m := mem[..];
    if size >= 4 {
      CopyWordsBackward(mem, dst, src, size);
    }
    ghost var words := mem[..];
    CopyBytesBackward(mem, dst, src, size % 4);
    BothLoops(m, words, mem[..], dst, src, size);
  }

  /** memcpy. */
  method Copy(mem: array<Byte>, dst: nat, src: nat, size: nat)
    requires Room(mem.Length, dst, src, size)
    modifies mem
    ensures mem[..] == CopyResult(old(mem[..]), dst, src, size)
  {
    if size == 0 {
      CopiedNone(mem[..], dst, src);
      CopiedAll(mem[..], mem[..], dst, src, 0);
      return;
    }
    if src >= dst || src + size <= dst {
      CopyForward(mem, dst, src, size);
    } else {
      CopyBackward(mem, dst, src, size);
    }
  }

  // When the result is right

  /** The three bytes the loops leave out, and the three they spill over, hold what a right copy leaves there. */
  ghost predicate SpillAgrees(m: seq<Byte>, dst: nat, src: nat, size: nat)
    requires size >= 4 && dst + size + 3 <= |m| && src + size + 3 <= |m|
  {
    var r := size % 4;
    && m[src + r..src + r + 3] == m[dst + r..dst + r + 3]
    && m[src + size..src + size + 3] == m[dst + size..dst + size + 3]
  }

  /** A backward copy of four bytes or more is right exactly for the memories in which those six bytes agree. */
  lemma BackwardIsRight(m: seq<Byte>, dst: nat, src: nat, size: nat)
    requires Backwards(dst, src, size) && size >= 4 && Room(|m|, dst, src, size)
    ensures CopyResult(m, dst, src, size) == Moved(m, dst, src, size) <==> SpillAgrees(m, dst, src, size)
  {
    hide Moved, MovedBackward;
    MovedAt(m, dst, src, size);
    var c, right, r := CopyResult(m, dst, src, size), Moved(m, dst, src, size), size % 4;
    if SpillAgrees(m, dst, src, size) {
      forall a | 0 <= a < |m| ensures c[a] == right[a] {
        LeftOrSpilled(m, dst, src, size, a);
      }
    } else {
      assert c[dst + r..dst + r + 3] == m[dst + r..dst + r + 3];
      assert right[dst + r..dst + r + 3] == m[src + r..src + r + 3];
      assert c[dst + size..dst + size + 3] == m[src + size..src + size + 3];
      assert right[dst + size..dst + size + 3] == m[dst + size..dst + size + 3];
    }
  }

  lemma MovedAt(m: seq<Byte>, dst: nat, src: nat, size: nat)
    requires Backwards(dst, src, size) && Room(|m|, dst, src, size)
    ensures var c, right := CopyResult(m, dst, src, size), Moved(m, dst, src, size);
            && |c| == |right| == |m|
            && forall a :: 0 <= a < |m| ==>
                 c[a] == BackwardByte(m, dst, src, size, a) && right[a] == MovedByte(m, dst, src, 0, size, a)
  {
  }

  /** A byte is treated alike by both copies, or is one of the six. */
  lemma LeftOrSpilled(m: seq<Byte>, dst: nat, src: nat, size: nat, a: nat)
    requires Backwards(dst, src, size) && size >= 4 && Room(|m|, dst, src, size) && a < |m|
    requires SpillAgrees(m, dst, src, size)
    ensures BackwardByte(m, dst, src, size, a) == MovedByte(m, dst, src, 0, size, a)
  {
    var o, r := a - dst, size % 4;
    if r <= o < r + 3 {
      assert m[src + r..src + r + 3][o - r] == m[dst + r..dst + r + 3][o - r];
    } else if size <= o < size + 3 {
      assert m[src + size..src + size + 3][o - size] == m[dst + size..dst + size + 3][o - size];
    }
  }

  /** A memory in which the first byte of the destination is alone. */
  function Marked(dst: nat, size: nat): seq<Byte> {
    seq<Byte>(dst + size + 3, a => if a == dst + size % 4 then 1 else 0)
  }

  /** memcpy is right for every memory if and only if it does not copy four bytes or more backwards. */
  lemma RightForAllMemories(dst: nat, src: nat, size: nat)
    ensures (forall m: seq<Byte> :: Room(|m|, dst, src, size) ==>
        CopyResult(m, dst, src, size) == Moved(m, dst, src, size))
            <==> !Backwards(dst, src, size) || size < 4
  {
    hide CopyResult, Moved;
    if Backwards(dst, src, size) && size >= 4 {
      var m := Marked(dst, size);
      BackwardIsRight(m, dst, src, size);
      var r := size % 4;
      assert m[src + r..src + r + 3][0] == 0 != m[dst + r..dst + r + 3][0];
    } else {
      forall m: seq<Byte> | Room(|m|, dst, src, size)
        ensures CopyResult(m, dst, src, size) == Moved(m, dst, src, size)
      {
        RightBelowFour(m, dst, src, size);
      }
    }
  }

  lemma RightBelowFour(m: seq<Byte>, dst: nat, src: nat, size: nat)
    requires Room(|m|, dst, src, size) && (!Backwards(dst, src, size) || size < 4)
    ensures CopyResult(m, dst, src, size) == Moved(m, dst, src, size)
  {
    if Backwards(dst, src, size) {
      forall a | 0 <= a < |m| ensures BackwardByte(m, dst, src, size, a) == MovedByte(m, dst, src, 0, size, a) {
      }
    }
  }
}
