/** Unsigned 64-bit arithmetic and the bitwise and, as far as ring indexes need them. */
module Bits {

  const WORD: nat := 0x1_0000_0000_0000_0000

  function Pow2(k: nat): (n: nat)
    ensures n >= 1
  {
    if k == 0 then 1 else 2 * Pow2(k - 1)
  }

  function And(a: nat, b: nat): (r: nat)
    ensures r <= b
  {
    if a == 0 || b == 0 then 0 else 2 * And(a / 2, b / 2) + if a % 2 == 1 && b % 2 == 1 then 1 else 0
  }

  function Subtract(a: nat, b: nat): nat { (a - b) % WORD }

  function Increment(a: nat): nat { (a + 1) % WORD }

  /** Masking with a power of two less one is the remainder. */
  lemma {:induction false} AndMask(c: nat, k: nat)
    ensures And(c, Pow2(k) - 1) == c % Pow2(k)
    decreases k
  {
    if k > 0 {
      var p := Pow2(k - 1);
      AndMask(c / 2, k - 1);
      HalfMod(c, p);
      hide And;
    }
  }

  lemma HalfMod(c: nat, p: nat)
    requires p > 0
    ensures c % (2 * p) == 2 * ((c / 2) % p) + c % 2
  {
    var q, r := (c / 2) / p, (c / 2) % p;
    assert c / 2 == q * p + r;
    assert c == 2 * (q * p + r) + c % 2;
    assert c == q * (2 * p) + (2 * r + c % 2);
    ModIs(c, 2 * p, q, 2 * r + c % 2);
  }

  lemma ModIs(c: nat, p: nat, q: nat, r: nat)
    requires p > 0 && r < p && c == q * p + r
    ensures c % p == r
  {
    var d := c / p - q;
    assert c == (c / p) * p + c % p;
    assert d * p == r - c % p;
    if d >= 1 { Larger(d, p); } else if d <= -1 { Larger(-d, p); }
  }

  lemma Larger(d: int, p: nat)
    requires d >= 1
    ensures d * p >= p
  {
  }

  ghost predicate IsPowerOfTwo(n: nat) { exists k: nat :: n == Pow2(k) }

  lemma {:induction false} AndOdd(n: nat)
    requires n % 2 == 1
    ensures And(n, n - 1) == n - 1
  {
    if n > 1 {
      AndSelf(n / 2);
    }
  }

  lemma {:induction false} AndSelf(n: nat)
    ensures And(n, n) == n
  {
    if n > 0 { AndSelf(n / 2); }
  }

  /** The test `n & (n - 1) == 0` holds of exactly the powers of two. */
  lemma {:induction false} PowerTest(n: nat)
    requires n > 0
    ensures And(n, n - 1) == 0 <==> IsPowerOfTwo(n)
  {
    if n == 1 {
      assert Pow2(0) == 1;
    } else if n % 2 == 1 {
      AndOdd(n);
      forall k: nat ensures n != Pow2(k) { }
    } else {
      var h := n / 2;
      PowerTest(h);
      assert (n - 1) / 2 == h - 1;
      assert And(n, n - 1) == 2 * And(h, h - 1);
      if IsPowerOfTwo(h) {
        var k: nat :| h == Pow2(k);
        assert n == Pow2(k + 1);
      }
      if IsPowerOfTwo(n) {
        var k: nat :| n == Pow2(k);
        assert h == Pow2(k - 1);
      }
    }
  }

  // Counts read modulo the word

  lemma {:induction false} Pow2Split(k: nat, m: nat)
    ensures Pow2(k + m) == Pow2(k) * Pow2(m)
    decreases m
  {
    if m > 0 {
      Pow2Split(k, m - 1);
      assert Pow2(k + m) == 2 * (Pow2(k) * Pow2(m - 1));
    }
  }

  lemma WordIsPow()
    ensures WORD == Pow2(64)
  {
    assert Pow2(8) == 256;
    Pow2Split(8, 8);
    Pow2Split(16, 16);
    Pow2Split(32, 32);
    hide Pow2;
  }

  lemma ModMultiple(e: nat, r: nat, p: nat)
    requires p > 0
    ensures (e * p + r) % p == r % p
  {
    var q, t := r / p, r % p;
    assert r == q * p + t;
    ModIs(e * p + r, p, e + q, t);
  }

  lemma ModFactor(n: nat, q: nat, r: nat, p: nat, m: nat)
    requires p > 0 && n == q * (p * m) + r
    ensures n % p == r % p
  {
    ModMultiple(q * m, r, p);
  }

  /** A power of two divides the word, so the remainder survives the wrap. */
  lemma WrapKeepsIndex(n: nat, k: nat)
    requires k <= 64
    ensures (n % WORD) % Pow2(k) == n % Pow2(k)
  {
    WordIsPow();
    Pow2Split(k, 64 - k);
    hide Pow2;
    var q, r := n / WORD, n % WORD;
    ModFactor(n, q, r, Pow2(k), Pow2(64 - k));
  }

  /** The distance of two counts can be read off the wrapped cursors if it fits a word. */
  lemma WrapSubtract(a: nat, b: nat)
    requires 0 <= a - b < WORD
    ensures Subtract(a % WORD, b % WORD) == a - b
  {
    var q := a / WORD - b / WORD;
    assert a % WORD - b % WORD == (a - b) - q * WORD;
  }

  lemma WrapIncrement(a: nat)
    ensures Increment(a % WORD) == (a + 1) % WORD
  {
  }

  /** Of counts less than `size` apart no two share an index. */
  lemma DistinctIndexes(i: nat, j: nat, size: nat)
    requires size > 0 && i < j < i + size
    ensures i % size != j % size
  {
    if i % size == j % size {
      var d := j / size - i / size;
      assert j - i == d * size;
      if d >= 1 { Larger(d, size); } else { Larger(1 - d, size); }
    }
  }
}
