/** `is_prime` and `next_prime` of the hash table, with the wrap-around of `size_t`. */
module Primes {
  const ROOT := 0x1_0000_0000
  const SIZE := 0x1_0000_0000_0000_0000   // one more than SIZE_MAX
  const SIZE_MAX := SIZE - 1

  /** The largest square of an odd number that a `size_t` holds. */
  const LIMIT := (ROOT - 1) * (ROOT - 1)

  predicate Divides(d: nat, n: nat) {
    d > 0 && n % d == 0
  }

  predicate Prime(n: nat) {
    n >= 2 && forall d | 2 <= d < n :: !Divides(d, n)
  }

  lemma ProductOrder(a: nat, b: nat, c: nat, d: nat)
    requires a <= c && b <= d
    ensures a * b <= c * d
  {
    assert a * b <= c * b <= c * d;
  }

  /** A factor comes with a cofactor, and one of the two is at most the root. */
  lemma Cofactor(n: nat, d: nat, root: nat)
    requires Divides(d, n) && 2 <= d < n && n <= root * root
    ensures exists e: nat :: 2 <= e <= root && Divides(e, n)
  {
    var e := n / d;
    assert n == d * e;
    if e < 2 { ProductOrder(d, e, d, 1); }
    if d > root && e > root { ProductOrder(root + 1, root + 1, d, e); }
    assert n == e * d;
    assert (e * d) % e == 0 by { MultipleDivides(e, d); }
    assert Divides(e, n);
  }

  lemma MultipleDivides(e: nat, d: nat)
    requires e > 0
    ensures (e * d) % e == 0
  {
    var q, r := (e * d) / e, (e * d) % e;
    assert e * d == e * q + r;
    assert e * (d - q) == r;
    if d > q {
      ProductOrder(e, 1, e, d - q);
    } else {
      NotAbove(e, d - q);
    }
  }

  lemma NotAbove(e: nat, k: int)
    requires k <= 0
    ensures e * k <= 0
  {
  }

  /** Odd numbers have no even ones. */
  lemma OddDivisors(n: nat, d: nat)
    requires n % 2 == 1 && Divides(d, n)
    ensures d % 2 == 1
  {
    var e := n / d;
    assert n == d * e;
    if d % 2 == 0 { EvenProduct(d / 2, e); }
  }

  lemma EvenProduct(h: nat, e: nat)
    ensures ((2 * h) * e) % 2 == 0
  {
    assert (2 * h) * e == 2 * (h * e);
  }

  /** No odd number from 3 up to `d`, exclusively, divides `n`. */
  predicate NoneBelow(n: nat, d: nat) {
    forall e | 3 <= e < d && e % 2 == 1 :: !Divides(e, n)
  }

  /** If none of the odd numbers up to the root divides an odd number, it is prime. */
  lemma UpToRoot(n: nat, d: nat)
    requires n % 2 == 1 && n >= 3 && NoneBelow(n, d + 1) && n <= d * d
    ensures Prime(n)
  {
    forall x | 2 <= x < n
      ensures !Divides(x, n)
    {
      if Divides(x, n) {
        Cofactor(n, x, d);
        var e: nat :| 2 <= e <= d && Divides(e, n);
        OddDivisors(n, e);
      }
    }
  }

  /** An odd number whose square is seven short of the size. The wrapped square of the divisor gets there at
      the latest, and no odd prime is beyond. */
  const TURN := 1852311383259529397

  lemma TurnSquare()
    ensures TURN % 2 == 1 && ROOT < TURN < LIMIT && (TURN * TURN) % SIZE == SIZE - 7
  {
  }

  lemma LastOddNumbers(n: nat)
    requires n % 2 == 1 && SIZE - 7 < n < SIZE
    ensures !Prime(n)
  {
    assert n == SIZE - 5 || n == SIZE - 3 || n == SIZE - 1;
    assert Divides(11, SIZE - 5) && Divides(13, SIZE - 3) && Divides(3, SIZE - 1);
  }

  /** A remainder may be taken before adding. */
  lemma WrapAdd(x: nat, y: nat)
    ensures (x % SIZE + y) % SIZE == (x + y) % SIZE
  {
  }

  /** The update of the square, wrapping round. */
  lemma SquareStep(d: nat, square: nat)
    requires square == (d * d) % SIZE
    ensures (square + 4 * (d + 1)) % SIZE == ((d + 2) * (d + 2)) % SIZE
  {
    WrapAdd(d * d, 4 * (d + 1));
    assert (d + 2) * (d + 2) == d * d + 4 * (d + 1);
  }

  /** Below the root nothing wraps. */
  lemma SquareSmall(d: nat)
    requires d < ROOT
    ensures (d * d) % SIZE == d * d
  {
    ProductOrder(d, d, ROOT - 1, ROOT - 1);
  }

  lemma NoneNext(n: nat, d: nat)
    requires NoneBelow(n, d) && d % 2 == 1 && d >= 3 && n % d != 0
    ensures NoneBelow(n, d + 1) && NoneBelow(n, d + 2)
  {
  }

  lemma RootBound(d: nat, c: nat)
    requires d * d < c < SIZE
    ensures d < ROOT
  {
    if d >= ROOT { ProductOrder(ROOT, ROOT, d, d); }
  }

  lemma RootLimit(d: nat, c: nat)
    requires d * d < c <= LIMIT
    ensures d < ROOT - 1
  {
    if d >= ROOT - 1 { ProductOrder(ROOT - 1, ROOT - 1, d, d); }
  }

  lemma BeyondThree(d: nat, c: nat)
    requires c >= 11 && d >= 3 && d * d < c
    ensures d + 2 < c
  {
    ProductOrder(3, d, d, d);
  }

  /** `is_prime` decides primality for every odd number of a `size_t` from 11 on. The square wraps round, but
      it meets `TURN` before the divisor can meet a prime candidate. */
  method IsPrime(candidate: nat) returns (prime: bool)
    requires candidate % 2 == 1 && 11 <= candidate < SIZE
    ensures prime <==> Prime(candidate)
  {
    hide Prime, NoneBelow;
    var divisor: nat := 3;
    var square: nat := divisor * divisor;
    NothingBelow(candidate);
    while square < candidate && candidate % divisor != 0
      invariant 3 <= divisor <= candidate && divisor % 2 == 1
      invariant square == (divisor * divisor) % SIZE
      invariant candidate <= LIMIT ==> divisor < ROOT && divisor < candidate
      invariant LIMIT < candidate <= SIZE - 7 ==> divisor <= TURN
      invariant NoneBelow(candidate, divisor)
      decreases candidate - divisor
    {
      if candidate <= LIMIT {
        SquareSmall(divisor);
        RootLimit(divisor, candidate);
        BeyondThree(divisor, candidate);
      }
      TurnSquare();
      SquareStep(divisor, square);
      NoneNext(candidate, divisor);
      Below(candidate, divisor);
      divisor := divisor + 1;
      square := (square + 4 * divisor) % SIZE;
      divisor := divisor + 1;
    }
    prime := candidate % divisor != 0;
    if prime {
      NoneNext(candidate, divisor);
      if divisor * divisor < candidate {
        RootBound(divisor, candidate);
        SquareSmall(divisor);
      }
      UpToRoot(candidate, divisor);
    } else if divisor < candidate {
      Composite(candidate, divisor);
    } else {
      TurnSquare();
      LastOddNumbers(candidate);
    }
  }

  lemma NothingBelow(n: nat)
    ensures NoneBelow(n, 3)
  {
  }

  /** The divisor stops at the candidate at the latest. */
  lemma Below(n: nat, d: nat)
    requires n % 2 == 1 && d % 2 == 1 && 3 <= d <= n && n % d != 0
    ensures d + 2 <= n
  {
  }

  lemma Composite(n: nat, d: nat)
    requires 3 <= d < n && n % d == 0
    ensures !Prime(n)
  {
    assert Divides(d, n);
  }

  predicate Skipped(c: nat, from: nat) {
    forall p: nat | from <= p < c :: !Prime(p)
  }

  lemma EvenNotPrime(n: nat)
    requires n % 2 == 0 && n > 2
    ensures !Prime(n)
  {
    assert Divides(2, n);
  }

  /** The least number that `next_prime` considers. */
  function Start(candidate: nat): (from: nat)
    ensures from >= 10 && from >= candidate && (from == 10 || from == candidate)
  {
    if candidate < 10 then 10 else candidate
  }

  /** `next_prime`: the least prime that is no less than the candidate and 10, or SIZE_MAX if none of them fits
      in a `size_t`. */
  method NextPrime(candidate: nat) returns (next: nat)
    requires candidate < SIZE
    ensures Start(candidate) <= next < SIZE
    ensures next == SIZE_MAX <==> forall p: nat | Start(candidate) <= p < SIZE :: !Prime(p)
    ensures next != SIZE_MAX ==> Prime(next) && forall p: nat | Start(candidate) <= p && Prime(p) :: next <= p
  {
    hide Prime, Skipped;
    var c := if candidate < 10 then 10 else candidate;
    next := if c % 2 == 0 then c + 1 else c;
    SkipFirst(c);
    var prime := next != SIZE_MAX;
    if prime {
      prime := IsPrime(next);
    }
    while SIZE_MAX != next && !prime
      invariant next % 2 == 1 && 11 <= next < SIZE && c <= next
      invariant next != SIZE_MAX ==> (prime <==> Prime(next))
      invariant Skipped(next, c)
      decreases SIZE - next
    {
      SkipTwo(next, c);
      next := next + 2;
      prime := next != SIZE_MAX;
      if prime {
        prime := IsPrime(next);
      }
    }
    LeastPrime(c, next);
  }

  lemma SkipFirst(c: nat)
    requires c >= 10
    ensures Skipped(if c % 2 == 0 then c + 1 else c, c)
  {
    if c % 2 == 0 { EvenNotPrime(c); }
  }

  lemma SkipTwo(next: nat, c: nat)
    requires next % 2 == 1 && next >= 3 && Skipped(next, c) && !Prime(next)
    ensures Skipped(next + 2, c)
  {
    hide Prime;
    EvenNotPrime(next + 1);
  }

  /** Where the search stops: at the least prime, or at SIZE_MAX, which is not prime, with no prime passed. */
  lemma LeastPrime(from: nat, next: nat)
    requires Skipped(next, from) && from <= next < SIZE && (next == SIZE_MAX || Prime(next))
    ensures next == SIZE_MAX <==> forall p: nat | from <= p < SIZE :: !Prime(p)
    ensures next != SIZE_MAX ==> Prime(next) && forall p: nat | from <= p && Prime(p) :: next <= p
  {
    hide Prime;
    LastOddNumbers(SIZE_MAX);
  }
}
