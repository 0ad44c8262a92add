/** Unsigned 64-bit words: reduction modulo 2^64, circular comparison, and powers of two. */
module Words {
  const WORD: nat := 0x1_0000_0000_0000_0000
  const HALF: nat := 0x8000_0000_0000_0000

  function Reduce(x: int): (r: nat)
    ensures r < WORD
  { x % WORD }

  /** circular_less_than on 64-bit words. */
  predicate CircularLess(a: int, b: int) { Reduce(a - b) > HALF }

  function Pow2(e: nat): (r: nat)
    ensures r > 0
  { if e == 0 then 1 else 2 * Pow2(e - 1) }

  /**
   The word comparison agrees with the integers exactly while they are less than half a word apart,
   or half a word ahead.
   */
  lemma CircularLessExact(a: int, b: int)
    requires a - b < WORD && b - a < WORD
    ensures (CircularLess(a, b) <==> a < b) <==> (b - a < HALF && a - b <= HALF)
  {
    if a < b { ModUnique(a - b, -1, a - b + WORD, WORD); } else { ModUnique(a - b, 0, a - b, WORD); }
  }

  lemma ModPlus(a: int, d: int, n: nat)
    requires n > 0
    ensures (a % n + d) % n == (a + d) % n
  {
    var q := a / n;
    assert a == q * n + a % n;
    ModShift(a % n + d, q, n);
  }

  lemma ModShift(r: int, k: int, n: nat)
    requires n > 0
    ensures (r + k * n) % n == r % n
  {
    var q := r / n;
    assert r == q * n + r % n;
    assert r + k * n == (q + k) * n + r % n;
    ModUnique(r + k * n, q + k, r % n, n);
  }

  lemma MulGrows(d: int, n: int)
    requires n > 0
    ensures d >= 1 ==> d * n >= n
    ensures d <= -1 ==> d * n <= -n
  {}

  lemma ModUnique(x: int, q: int, r: int, n: nat)
    requires n > 0 && x == q * n + r && 0 <= r < n
    ensures x % n == r
  {
    var d := x / n - q;
    assert x == (x / n) * n + x % n;
    assert d * n == r - x % n;
    MulGrows(d, n);
  }

  /** Numbers less than a full turn apart have different slots. */
  lemma ModDistinct(a: int, b: int, n: nat)
    requires n > 0 && 0 < a - b < n
    ensures a % n != b % n
  {
    var r, d := b % n, a - b;
    ModPlus(b, d, n);
    if r + d < n { ModUnique(r + d, 0, r + d, n); } else { ModUnique(r + d, 1, r + d - n, n); }
  }

  lemma {:induction false} Pow2Splits(e: nat, k: nat)
    ensures Pow2(e + k) == Pow2(e) * Pow2(k)
  {
    if e > 0 { Pow2Splits(e - 1, k); }
  }

  lemma WordIsPow2()
    ensures Pow2(64) == WORD
  {
    assert Pow2(8) == 0x100;
    Pow2Splits(8, 8);
    assert Pow2(16) == 0x1_0000;
    Pow2Splits(16, 16);
    assert Pow2(32) == 0x1_0000_0000;
    Pow2Splits(32, 32);
  }

  lemma MulAssoc(q: int, a: int, b: int)
    ensures q * (a * b) == (q * b) * a
  {}

  /** Reducing to a word first does not disturb a power-of-two mask. */
  lemma ReduceMask(x: int, e: nat)
    requires e <= 64
    ensures Reduce(x) % Pow2(e) == x % Pow2(e)
  {
    WordIsPow2();
    Pow2Splits(e, 64 - e);
    var q, a, b := x / WORD, Pow2(e), Pow2(64 - e);
    assert x == Reduce(x) + q * (a * b);
    MulAssoc(q, a, b);
    ModShift(Reduce(x), q * b, a);
  }

  lemma {:induction false} Pow2Mono(a: nat, b: nat)
    requires a <= b
    ensures Pow2(a) <= Pow2(b)
  {
    if a < b { Pow2Mono(a, b - 1); }
  }

  lemma ReduceMinus(a: int, b: int)
    ensures Reduce(a - (Reduce(b) as int)) == Reduce(a - b)
  {
    var q := b / WORD;
    assert b == Reduce(b) + q * WORD;
    assert a - Reduce(b) == (a - b) + q * WORD;
    ModShift(a - b, q, WORD);
  }
}
