/** Bit operations over unbounded naturals: the mask and wrap-around arithmetic
    of a power-of-two ring with 32-bit counters, and words read as sets of bits. */
module Bits {
  import opened Wrappers

  function Pow2(k: nat): (p: nat)
    ensures p > 0
  {
    if k == 0 then 1 else 2 * Pow2(k - 1)
  }

  predicate IsPowerOfTwo(n: nat) {
    n == 1 || (n > 1 && n % 2 == 0 && IsPowerOfTwo(n / 2))
  }

  function Log2(n: nat): (k: nat)
    requires IsPowerOfTwo(n)
    ensures n == Pow2(k)
  {
    if n == 1 then 0 else 1 + Log2(n / 2)
  }

  lemma {:induction false} Pow2Grows(j: nat, k: nat)
    requires j < k
    ensures Pow2(j) < Pow2(k)
    decreases k
  {
    if j < k - 1 {
      Pow2Grows(j, k - 1);
    }
  }

  /** Bitwise and of two naturals, bit by bit. */
  function And(a: nat, b: nat): nat {
    if a == 0 || b == 0 then 0 else (a % 2) * (b % 2) + 2 * And(a / 2, b / 2)
  }

  /** A nonzero multiple of `n` is at least `n` away from zero. */
  lemma Multiple(d: int, n: nat)
    ensures d >= 1 ==> d * n >= n
    ensures d <= -1 ==> d * n <= 0 - n
  {
  }

  lemma RemainderIs(x: nat, n: nat, q: nat, r: nat)
    requires r < n && x == q * n + r
    ensures x % n == r
  {
    var a, b := x / n, x % n;
    assert (a - q) * n == r - b;
    Multiple(a - q, n);
  }

  lemma HalfRemainder(x: nat, half: nat)
    requires half > 0
    ensures x % (2 * half) == x % 2 + 2 * (x / 2 % half)
  {
    var q, r := x / 2 / half, x / 2 % half;
    assert x / 2 == q * half + r;
    assert x == q * (2 * half) + (x % 2 + 2 * r);
    RemainderIs(x, 2 * half, q, x % 2 + 2 * r);
  }

  /** Masking with `2^k - 1` takes the remainder by `2^k`. */
  lemma {:induction false} MaskIsRemainder(x: nat, k: nat)
    ensures And(x, Pow2(k) - 1) == x % Pow2(k)
    decreases k
  {
    if k > 0 {
      hide And;
      var half := Pow2(k - 1);
      HalfRemainder(x, half);
      MaskIsRemainder(x / 2, k - 1);
      AndOdd(x, half - 1);
      assert Pow2(k) - 1 == 2 * (half - 1) + 1;
    }
  }

  lemma AndOdd(x: nat, m: nat)
    ensures And(x, 2 * m + 1) == x % 2 + 2 * And(x / 2, m)
  {
    assert (2 * m + 1) % 2 == 1 && (2 * m + 1) / 2 == m;
  }

  lemma {:induction false} PowersMultiply(a: nat, b: nat)
    ensures Pow2(a + b) == Pow2(a) * Pow2(b)
    decreases a
  {
    if a > 0 {
      PowersMultiply(a - 1, b);
    }
  }

  lemma Pow2Of32()
    ensures Pow2(32) == U32_MODULUS
  {
    assert Pow2(4) == 16;
    PowersMultiply(4, 4);
    PowersMultiply(8, 8);
    PowersMultiply(16, 16);
  }

  lemma RemainderOfRemainder(x: nat, n: nat, m: nat)
    requires n > 0 && m > 0
    ensures n * m > 0 && x % (n * m) % n == x % n
  {
    var k := n * m;
    Positive(n, m);
    var q, r := x / k, x % k;
    var a, b := r / n, r % n;
    assert x == q * k + r && r == a * n + b;
    Regroup(q, n, m, a, b);
    RemainderIs(x, n, q * m + a, b);
  }

  lemma Positive(n: nat, m: nat)
    requires n > 0 && m > 0
    ensures n * m > 0
  {
  }

  lemma Regroup(q: nat, n: nat, m: nat, a: nat, b: nat)
    ensures q * (n * m) + (a * n + b) == (q * m + a) * n + b
  {
    assert q * (n * m) == (q * m) * n;
    assert (q * m + a) * n == (q * m) * n + a * n;
  }

  /** A 32-bit wrapping counter still finds its slot: the ring size divides 2^32. */
  lemma WrapKeepsSlot(x: nat, k: nat)
    requires k <= 32
    ensures And(x % U32_MODULUS, Pow2(k) - 1) == x % Pow2(k)
  {
    Pow2Of32();
    PowersMultiply(k, 32 - k);
    RemainderOfRemainder(x, Pow2(k), Pow2(32 - k));
    MaskIsRemainder(x % U32_MODULUS, k);
  }

  /** Positions fewer than `n` apart fall into different slots of a ring of `n`. */
  lemma SlotsDiffer(i: nat, j: nat, n: nat)
    requires i < j < i + n
    ensures i % n != j % n
  {
    var a, b := i / n, j / n;
    assert j - i == (b - a) * n + (j % n - i % n);
    Multiple(b - a, n);
  }

  // ---------- Words as sets of bit numbers ----------

  function Or(a: nat, b: nat): nat {
    if a == 0 then b else if b == 0 then a
    else (if a % 2 + b % 2 > 0 then 1 else 0) + 2 * Or(a / 2, b / 2)
  }

  /** `a & !b`. */
  function AndNot(a: nat, b: nat): nat {
    if a == 0 then 0 else if b == 0 then a
    else (a % 2) * (1 - b % 2) + 2 * AndNot(a / 2, b / 2)
  }

  predicate Test(n: nat, i: nat) {
    if i == 0 then n % 2 == 1 else Test(n / 2, i - 1)
  }

  lemma {:induction false} ZeroHasNoBits(i: nat)
    ensures !Test(0, i)
    decreases i
  {
    if i > 0 {
      ZeroHasNoBits(i - 1);
    }
  }

  lemma Halved(n: nat, low: nat, high: nat)
    requires low < 2 && n == low + 2 * high
    ensures n / 2 == high && n % 2 == low
  {
  }

  /** Halving a word drops its lowest bit, whatever the operation. */
  lemma AndHalves(a: nat, b: nat)
    ensures And(a, b) / 2 == And(a / 2, b / 2)
    ensures And(a, b) % 2 == 1 <==> a % 2 == 1 && b % 2 == 1
  {
    Halved(And(a, b), if a % 2 == 1 && b % 2 == 1 then 1 else 0, And(a / 2, b / 2));
  }

  lemma OrHalves(a: nat, b: nat)
    ensures Or(a, b) / 2 == Or(a / 2, b / 2)
    ensures Or(a, b) % 2 == 1 <==> a % 2 == 1 || b % 2 == 1
  {
    Halved(Or(a, b), if a % 2 == 1 || b % 2 == 1 then 1 else 0, Or(a / 2, b / 2));
  }

  lemma AndNotHalves(a: nat, b: nat)
    ensures AndNot(a, b) / 2 == AndNot(a / 2, b / 2)
    ensures AndNot(a, b) % 2 == 1 <==> a % 2 == 1 && b % 2 == 0
  {
    Halved(AndNot(a, b), if a % 2 == 1 && b % 2 == 0 then 1 else 0, AndNot(a / 2, b / 2));
  }

  /** Bit by bit, the word operations are intersection, union and difference. */
  lemma {:induction false} WordsAreSets(a: nat, b: nat, i: nat)
    ensures Test(And(a, b), i) <==> Test(a, i) && Test(b, i)
    ensures Test(Or(a, b), i) <==> Test(a, i) || Test(b, i)
    ensures Test(AndNot(a, b), i) <==> Test(a, i) && !Test(b, i)
    decreases i
  {
    hide And, Or, AndNot;
    AndHalves(a, b);
    OrHalves(a, b);
    AndNotHalves(a, b);
    if i > 0 {
      WordsAreSets(a / 2, b / 2, i - 1);
    }
  }

  /** `a & !b == 0` says that every bit of `a` is a bit of `b`. */
  lemma {:induction false} NoBitsOutside(a: nat, b: nat)
    ensures AndNot(a, b) == 0 <==> forall i: nat :: Test(a, i) ==> Test(b, i)
    decreases a
  {
    if AndNot(a, b) == 0 {
      forall i: nat | Test(a, i)
        ensures Test(b, i)
      {
        WordsAreSets(a, b, i);
        ZeroHasNoBits(i);
      }
    } else {
      var i := SomeBit(AndNot(a, b));
      WordsAreSets(a, b, i);
    }
  }

  lemma {:induction false} SomeBit(n: nat) returns (i: nat)
    requires n > 0
    ensures Test(n, i)
  {
    if n % 2 == 1 {
      i := 0;
    } else {
      i := SomeBit(n / 2);
      i := i + 1;
    }
  }
}
