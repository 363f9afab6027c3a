/** 64-bit machine words as bounded naturals, with C's `|` and `&` defined bit by bit. */
module Words {

  const WORD_LIMIT: nat := 0x1_0000_0000_0000_0000

  type Word = w: nat | w < 0x1_0000_0000_0000_0000

  type Byte = b: int | 0 <= b < 256

  function Pow2(k: nat): (r: nat)
    ensures r >= 1
  {
    if k == 0 then 1 else 2 * Pow2(k - 1)
  }

  function Or(a: nat, b: nat): nat {
    if a == 0 then b else if b == 0 then a
    else 2 * Or(a / 2, b / 2) + (if a % 2 == 1 || b % 2 == 1 then 1 else 0)
  }

  function And(a: nat, b: nat): nat {
    if a == 0 || b == 0 then 0
    else 2 * And(a / 2, b / 2) + (if a % 2 == 1 && b % 2 == 1 then 1 else 0)
  }

  lemma DivUnique(a: nat, m: nat, q: nat, r: nat)
    requires r < m && a == q * m + r
    ensures a / m == q && a % m == r
  {
    var d := q - a / m;
    assert d * m == q * m - (a / m) * m;
    assert d * m == a % m - r;
    MultipleBounds(d, m);
  }

  lemma MultipleBounds(d: int, m: int)
    requires m >= 1
    ensures d >= 1 ==> d * m >= m
    ensures d <= -1 ==> d * m <= -m
  {
    assert d * m == (d - 1) * m + m;
    assert d * m == (d + 1) * m - m;
  }

  /** Dividing by m and then by n, digit by digit. */
  lemma DivMod(a: nat, m: nat, n: nat)
    requires m >= 1 && n >= 1
    ensures m * n >= 1
    ensures a / (m * n) == a / m / n
    ensures a % (m * n) == (a / m % n) * m + a % m
  {
    MultipleBounds(m, n);
    var b := a / m;
    var q, r := b / n, b % n;
    assert a == (q * n + r) * m + a % m;
    assert (q * n + r) * m == q * (m * n) + r * m by {
      assert q * n * m == q * (m * n);
    }
    MultipleBounds(n - r, m);
    assert (n - r) * m == m * n - r * m;
    DivUnique(a, m * n, q, r * m + a % m);
  }

  lemma Pow2Add(j: nat, k: nat)
    ensures Pow2(j + k) == Pow2(j) * Pow2(k)
  {
    if j > 0 {
      Pow2Add(j - 1, k);
      assert Pow2(j + k) == 2 * (Pow2(j - 1) * Pow2(k));
    }
  }

  /** Joining a value whose low k bits are clear with one that fits in k bits is addition. */
  lemma {:induction false} OrAdds(a: nat, b: nat, k: nat)
    requires a % Pow2(k) == 0 && b < Pow2(k)
    ensures Or(a, b) == a + b
  {
    if a != 0 && b != 0 {
      DivMod(a, 2, Pow2(k - 1));
      OrAdds(a / 2, b / 2, k - 1);
    }
  }

  /** Masking with bits lo..hi-1 subtracts what lies below lo from what lies below hi. */
  lemma {:induction false} AndField(a: nat, lo: nat, hi: nat)
    requires lo <= hi
    ensures Pow2(lo) <= Pow2(hi)
    ensures And(a, Pow2(hi) - Pow2(lo)) == a % Pow2(hi) - a % Pow2(lo)
  {
    if lo > 0 {
      AndField(a / 2, lo - 1, hi - 1);
      DivMod(a, 2, Pow2(hi - 1));
      DivMod(a, 2, Pow2(lo - 1));
      assert (Pow2(hi) - Pow2(lo)) / 2 == Pow2(hi - 1) - Pow2(lo - 1);
    } else if hi > 0 {
      AndField(a / 2, 0, hi - 1);
      DivMod(a, 2, Pow2(hi - 1));
      assert (Pow2(hi) - 1) / 2 == Pow2(hi - 1) - 1;
    }
  }
}
