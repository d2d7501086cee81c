/** 32-bit counters that run on and index a ring of n slots, as in pipe.c and
    console.c. */
module Counters {
  const WORD := 0x1_0000_0000

  lemma Small(a: int, n: int)
    requires 0 - n < a * n < n
    ensures a == 0
  {
    assert a > 0 ==> (a - 1) * n >= 0;
    assert a < 0 ==> (-1 - a) * n >= 0;
  }

  lemma ModIs(q: int, r: int, n: int)
    requires 0 <= r < n
    ensures (q * n + r) % n == r
  {
    var x := q * n + r;
    var a := x / n - q;
    assert a * n == x / n * n - q * n;
    assert a * n == r - x % n;
    Small(a, n);
  }

  /** The low word of a counter finds the slot the counter finds. */
  lemma SameSlot(k: nat, n: nat)
    requires 0 < n && WORD % n == 0
    ensures k % WORD % n == k % n
  {
    var d := WORD / n;
    assert WORD == d * n;
    assert k == k / WORD * WORD + k % WORD;
    var q := k / WORD * d;
    assert k / WORD * WORD == q * n;
    var w := k % WORD;
    assert k == (q + w / n) * n + w % n;
    ModIs(q + w / n, w % n, n);
  }

  lemma OtherSlot(j: nat, k: nat, n: nat)
    requires j < k < j + n
    ensures j % n != k % n
  {
    if j % n == k % n {
      var a := k / n - j / n;
      assert a * n == k / n * n - j / n * n;
      assert a * n == k - j;
      Small(a, n);
    }
  }

  lemma NextCount(k: nat)
    ensures (k % WORD + 1) % WORD == (k + 1) % WORD
  {
  }
}
