/** `frexp` and `ldexpl` over exact reals: splitting off a binary exponent, and scaling by one, by
    repeated squaring (sections 7.12.6.4 and 7.12.6.6 of ISO C99). */
module Scaling {

  /** `1 << i`. */
  function Bit(i: nat): (b: int)
    ensures b >= 1
  {
    if i == 0 then 1 else 2 * Bit(i - 1)
  }

  /** The powers of two, negative ones included. */
  function Pow2(n: int): real
    decreases if n < 0 then -n else n
  {
    if n == 0 then 1.0 else if n > 0 then 2.0 * Pow2(n - 1) else Pow2(n + 1) / 2.0
  }

  lemma {:induction false} Pow2Step(n: int)
    ensures Pow2(n + 1) == 2.0 * Pow2(n)
  {
  }

  lemma {:induction false} Pow2Positive(n: int)
    ensures Pow2(n) > 0.0
    decreases if n < 0 then -n else n
  {
    if n > 0 { Pow2Positive(n - 1); } else if n < 0 { Pow2Positive(n + 1); }
  }

  lemma {:induction false} Pow2Sum(a: int, b: int)
    ensures Pow2(a + b) == Pow2(a) * Pow2(b)
    decreases if b < 0 then -b else b
  {
    if b > 0 {
      Pow2Sum(a, b - 1);
      Pow2Step(a + b - 1);
      Pow2Step(b - 1);
      Regroup(Pow2(a), Pow2(b - 1), 2.0);
    } else if b < 0 {
      Pow2Sum(a, b + 1);
      Pow2Step(a + b);
      Pow2Step(b);
      Regroup(Pow2(a), Pow2(b), 2.0);
    }
  }

  lemma Regroup(x: real, y: real, z: real)
    ensures x * (z * y) == z * (x * y)
    ensures (x * y) * z == x * (y * z)
  {
  }

  lemma {:induction false} Pow2Increases(a: int, b: int)
    requires a < b
    ensures Pow2(a) < Pow2(b)
    decreases b - a
  {
    Pow2Positive(b - 1);
    Pow2Step(b - 1);
    if a < b - 1 { Pow2Increases(a, b - 1); }
  }

  lemma {:induction false} Pow2Order(a: int, b: int, x: real)
    requires Pow2(a) <= x < Pow2(b)
    ensures a < b
  {
    if b < a { Pow2Increases(b, a); }
  }

  lemma BitIncreases(i: nat, j: nat)
    requires i <= j
    ensures Bit(i) <= Bit(j)
    decreases j
  {
    if i < j { BitIncreases(i, j - 1); }
  }

  /** Multiplying by a positive number keeps the order. */
  lemma ScaleOrder(x: real, y: real, f: real)
    requires x <= y && f > 0.0
    ensures x * f <= y * f
  {
    assert (y - x) * f >= 0.0;
  }

  lemma ScaleStrict(x: real, y: real, f: real)
    requires x < y && f > 0.0
    ensures x * f < y * f
  {
    assert (y - x) * f > 0.0;
  }

  /** Moving a power of two from the number to its exponent. */
  lemma Moved(x: real, e: int, d: int)
    ensures (x * Pow2(-d)) * Pow2(e + d) == x * Pow2(e)
  {
    Pow2Sum(-d, e + d);
    Regroup(x, Pow2(-d), Pow2(e + d));
  }

  /** Bounds move along. */
  lemma BoundsMove(x: real, low: int, high: int, d: int)
    requires Pow2(low) <= x < Pow2(high)
    ensures Pow2(low + d) <= x * Pow2(d) < Pow2(high + d)
  {
    hide Pow2;
    Pow2Positive(d);
    Pow2Sum(low, d);
    Pow2Sum(high, d);
    ScaleOrder(Pow2(low), x, Pow2(d));
    ScaleStrict(x, Pow2(high), Pow2(d));
  }

  /** The exponents are those of an `int` of 32 bits. */
  const WIDTH: nat := 31

  /** The first entries of the tables hold the powers computed so far. */
  predicate Tabulated(pow2: array<real>, powh: array<real>, i: nat)
    requires pow2.Length == powh.Length && i <= pow2.Length
    reads pow2, powh
  {
    forall j: nat | j < i :: pow2[j] == Pow2(Bit(j)) && powh[j] == Pow2(-Bit(j))
  }

  /** A step of either first loop is taken at most `WIDTH` times. */
  lemma UpBound(x0: real, x: real, i: nat)
    requires x0 == x * Pow2(Bit(i) - 1) && x >= Pow2(Bit(i)) && x0 < Pow2(Bit(WIDTH))
    ensures i < WIDTH
  {
    hide Pow2, Bit;
    var b := Bit(i);
    Pow2Positive(b - 1);
    ScaleOrder(Pow2(b), x, Pow2(b - 1));
    Pow2Sum(b, b - 1);
    Pow2Order(2 * b - 1, Bit(WIDTH), x0);
    if i >= WIDTH { BitIncreases(WIDTH, i); }
  }

  lemma DownBound(x0: real, x: real, i: nat)
    requires x0 == x * Pow2(1 - Bit(i)) && 0.0 < x < Pow2(-Bit(i)) && Pow2(-Bit(WIDTH)) < x0
    ensures i < WIDTH
  {
    hide Pow2, Bit;
    var b := Bit(i);
    Pow2Positive(1 - b);
    ScaleStrict(x, Pow2(-b), Pow2(1 - b));
    Pow2Sum(-b, 1 - b);
    Pow2Order(-Bit(WIDTH), 1 - 2 * b, x0);
    if i >= WIDTH { BitIncreases(WIDTH, i); }
  }

  lemma Squared(b: int)
    ensures Pow2(2 * b) == Pow2(b) * Pow2(b) && Pow2(-(2 * b)) == Pow2(-b) * Pow2(-b)
  {
    Pow2Sum(b, b);
    Pow2Sum(-b, -b);
  }

  /** The branch of `frexp` for numbers from 1 on, up to the refinement. */
  method ScaleDown(x0: real, pow2: array<real>, powh: array<real>) returns (x: real, exponent: int, i: nat)
    requires 1.0 <= x0 < Pow2(Bit(WIDTH)) && pow2.Length == powh.Length == 64 && pow2 != powh
    modifies pow2, powh
    ensures i <= WIDTH && Tabulated(pow2, powh, i)
    ensures x * Pow2(exponent) == x0 && Pow2(-Bit(i)) <= x < 1.0
  {
    hide Pow2, Bit;
    Basics();
    x, exponent, i := x0, 0, 0;
    var pow2_i, powh_i := 2.0, 0.5;
    Stay(x0);
    while x >= pow2_i
      invariant i <= WIDTH && Tabulated(pow2, powh, i)
      invariant pow2_i == Pow2(Bit(i)) && powh_i == Pow2(-Bit(i))
      invariant exponent == Bit(i) - 1 && x * Pow2(exponent) == x0 && x >= 1.0
      decreases WIDTH - i
    {
      UpBound(x0, x, i);
      Moved(x, exponent, Bit(i));
      StaysAbove(x, Bit(i));
      Squared(Bit(i));
      BitNext(i);
      exponent := exponent + Bit(i);
      x := x * powh_i;
      pow2[i] := pow2_i;
      powh[i] := powh_i;
      i := i + 1;
      pow2_i, powh_i := pow2_i * pow2_i, powh_i * powh_i;
    }
    while i > 0 && x < pow2[i - 1]
      invariant i <= WIDTH && Tabulated(pow2, powh, i)
      invariant powh_i == Pow2(-Bit(i)) && x < Pow2(Bit(i))
    {
      i := i - 1;
      powh_i := powh[i];
    }
    Moved(x, exponent, Bit(i));
    BoundsMove(x, 0, Bit(i), -Bit(i));
    exponent := exponent + Bit(i);
    x := x * powh_i;
  }

  lemma Basics()
    ensures Bit(0) == 1 && Pow2(0) == 1.0 && Pow2(1) == 2.0 && Pow2(-1) == 0.5
  {
  }

  lemma Stay(x: real)
    ensures x * Pow2(0) == x
  {
  }

  lemma BitNext(i: nat)
    ensures Bit(i + 1) == 2 * Bit(i)
  {
  }

  lemma StaysAbove(x: real, b: int)
    requires x >= Pow2(b)
    ensures x * Pow2(-b) >= 1.0
  {
    hide Pow2;
    Basics();
    Pow2Positive(-b);
    ScaleOrder(Pow2(b), x, Pow2(-b));
    Pow2Sum(b, -b);
  }

  /** The product by itself, for the prover's sake. */
  function Scaled(x: real, f: real): real {
    x * f
  }

  lemma ScaledBelow(x: real, b: int, f: real)
    requires 0.0 < x < Pow2(-b) && f == Pow2(b)
    ensures 0.0 < Scaled(x, f) < 1.0 && Scaled(x, f) == x * f
  {
    hide Pow2;
    Pow2Positive(b);
    Pow2Sum(-b, b);
    Basics();
    ScaleStrict(0.0, x, f);
    ScaleStrict(x, Pow2(-b), f);
  }

  /** The branch for numbers below 1. */
  method ScaleUp(x0: real, pow2: array<real>, powh: array<real>) returns (x: real, exponent: int, i: nat)
    requires Pow2(-Bit(WIDTH)) < x0 < 1.0 && 0.0 < x0 && pow2.Length == powh.Length == 64 && pow2 != powh
    modifies pow2, powh
    ensures i <= WIDTH && Tabulated(pow2, powh, i)
    ensures x * Pow2(exponent) == x0 && Pow2(-Bit(i)) <= x < 1.0
  {
    hide Pow2, Bit, Scaled;
    Basics();
    x, exponent, i := x0, 0, 0;
    var pow2_i, powh_i := 2.0, 0.5;
    Stay(x0);
    while x < powh_i
      invariant i <= WIDTH && Tabulated(pow2, powh, i)
      invariant pow2_i == Pow2(Bit(i)) && powh_i == Pow2(-Bit(i))
      invariant exponent == 1 - Bit(i) && x * Pow2(exponent) == x0 && 0.0 < x < 1.0
      decreases WIDTH - i
    {
      DownBound(x0, x, i);
      Moved(x, exponent, -Bit(i));
      ScaledBelow(x, Bit(i), pow2_i);
      Squared(Bit(i));
      BitNext(i);
      exponent := exponent - Bit(i);
      x := Scaled(x, pow2_i);
      pow2[i] := pow2_i;
      powh[i] := powh_i;
      i := i + 1;
      pow2_i, powh_i := pow2_i * pow2_i, powh_i * powh_i;
    }
  }

  /** One halving of the interval that the number is known to be in. */
  lemma Halved(x0: real, x: real, exponent: int, b: int)
    requires x * Pow2(exponent) == x0 && Pow2(-(2 * b)) <= x < Pow2(-b)
    ensures Scaled(x, Pow2(b)) * Pow2(exponent - b) == x0
    ensures Pow2(-b) <= Scaled(x, Pow2(b)) < 1.0
  {
    hide Pow2;
    Basics();
    Moved(x, exponent, -b);
    BoundsMove(x, -(2 * b), -b, b);
  }

  /** The last loop of `frexp`: down to the range from 1/2 to 1. */
  method Refine(x0: real, start: real, e: int, n: nat, pow2: array<real>, powh: array<real>)
    returns (x: real, exponent: int)
    requires pow2.Length == powh.Length == 64 && n <= WIDTH && Tabulated(pow2, powh, n)
    requires start * Pow2(e) == x0 && Pow2(-Bit(n)) <= start < 1.0
    ensures x * Pow2(exponent) == x0 && 0.5 <= x < 1.0
  {
    hide Pow2, Bit, Scaled;
    Basics();
    x, exponent := start, e;
    var i: nat := n;
    while i > 0
      invariant i <= WIDTH && Tabulated(pow2, powh, i)
      invariant x * Pow2(exponent) == x0 && Pow2(-Bit(i)) <= x < 1.0
    {
      i := i - 1;
      BitNext(i);
      if x < powh[i] {
        Halved(x0, x, exponent, Bit(i));
        exponent := exponent - Bit(i);
        x := Scaled(x, pow2[i]);
      }
    }
  }

  /** `frexp` of a number that is neither NaN nor infinite: the table index stays below 64, and a number
      other than 0 is split into a mantissa from 1/2 to 1, exclusively, and an exponent. */
  method FrExp(arg: real) returns (x: real, exponent: int)
    requires arg != 0.0 ==> Pow2(-Bit(WIDTH)) < Abs(arg) < Pow2(Bit(WIDTH))
    ensures x * Pow2(exponent) == arg
    ensures arg != 0.0 ==> 0.5 <= Abs(x) < 1.0 && -Bit(WIDTH) < exponent <= Bit(WIDTH)
    ensures arg != 0.0 ==> (exponent == Bit(WIDTH) <==> Abs(arg) >= Pow2(Bit(WIDTH) - 1))
    ensures arg == 0.0 ==> x == 0.0 && exponent == 0
  {
    hide Pow2, Bit;
    Basics();
    Stay(arg);
    if arg + arg == arg {
      return arg, 0;
    }
    var negative := arg < 0.0;
    var x0 := if negative then -arg else arg;
    var pow2, powh := new real[64](_ => 0.0), new real[64](_ => 0.0);
    var i: nat;
    if x0 >= 1.0 {
      x, exponent, i := ScaleDown(x0, pow2, powh);
    } else {
      x, exponent, i := ScaleUp(x0, pow2, powh);
    }
    x, exponent := Refine(x0, x, exponent, i, pow2, powh);
    ExponentBounds(x0, x, exponent);
    if negative {
      Negated(x, Pow2(exponent));
      x := -x;
    }
  }

  function Abs(x: real): real {
    if x < 0.0 then -x else x
  }

  lemma Negated(x: real, f: real)
    ensures (-x) * f == -(x * f)
  {
  }

  lemma MantissaBounds(x0: real, x: real, e: int)
    requires x * Pow2(e) == x0 && 0.5 <= x < 1.0
    ensures Pow2(e - 1) <= x0 < Pow2(e)
  {
    hide Pow2;
    Basics();
    BoundsMove(x, -1, 0, e);
  }

  /** The exponent is determined by the size of the number. */
  lemma ExponentBounds(x0: real, x: real, e: int)
    requires x * Pow2(e) == x0 && 0.5 <= x < 1.0
    ensures Pow2(e - 1) <= x0 < Pow2(e)
    ensures Pow2(-Bit(WIDTH)) < x0 < Pow2(Bit(WIDTH)) ==> -Bit(WIDTH) < e <= Bit(WIDTH)
    ensures x0 < Pow2(Bit(WIDTH)) ==> (e == Bit(WIDTH) <==> x0 >= Pow2(Bit(WIDTH) - 1)) || e > Bit(WIDTH)
  {
    hide Bit, Pow2;
    MantissaBounds(x0, x, e);
    if Pow2(-Bit(WIDTH)) < x0 { Pow2Order(-Bit(WIDTH), e, x0); }
    if x0 < Pow2(Bit(WIDTH)) { Pow2Order(e - 1, Bit(WIDTH), x0); }
    if x0 >= Pow2(Bit(WIDTH) - 1) { Pow2Order(Bit(WIDTH) - 1, e, x0); }
  }

  /** The splitting is unique. */
  lemma SplitUnique(x: real, d: int, y: real, e: int)
    requires 0.5 <= Abs(x) < 1.0 && 0.5 <= Abs(y) < 1.0 && x * Pow2(d) == y * Pow2(e)
    ensures x == y && d == e
  {
    hide Pow2;
    Pow2Positive(d);
    Pow2Positive(e);
    Sign(x, Pow2(d));
    Sign(y, Pow2(e));
    var x0 := Abs(x) * Pow2(d);
    MantissaBounds(x0, Abs(x), d);
    MantissaBounds(x0, Abs(y), e);
    Pow2Order(d - 1, e, x0);
    Pow2Order(e - 1, d, x0);
    Cancel(x, y, Pow2(d));
  }

  lemma Sign(x: real, f: real)
    requires f > 0.0
    ensures Abs(x) * f == Abs(x * f)
  {
    if x < 0.0 {
      Negated(x, f);
      ScaleStrict(x, 0.0, f);
    } else {
      ScaleOrder(0.0, x, f);
    }
  }

  lemma Cancel(x: real, y: real, f: real)
    requires x * f == y * f && f > 0.0
    ensures x == y
  {
    assert (x - y) * f == 0.0;
  }

  /** The part of an exponent that the bits below number `i` hold. */
  function Low(n: nat, i: nat): nat {
    n % Bit(i)
  }

  lemma NextBit(n: nat, i: nat)
    ensures Low(n, i + 1) == Low(n, i) + (if (n / Bit(i)) % 2 == 1 then Bit(i) else 0)
  {
    var b := Bit(i);
    var q, r := n / b, n % b;
    DivMod(n, b);
    var h, s := q / 2, q % 2;
    assert n == 2 * b * h + (s * b + r) by { Spread(b, h, s, q, r, n); }
    ModUnique(n, 2 * b, h, s * b + r);
  }

  lemma DivMod(n: nat, b: int)
    requires b > 0
    ensures n == b * (n / b) + n % b && 0 <= n % b < b
  {
  }

  lemma Spread(b: int, h: int, s: int, q: int, r: int, n: int)
    requires q == 2 * h + s && n == b * q + r
    ensures n == 2 * b * h + (s * b + r)
  {
  }

  lemma ModUnique(n: nat, m: int, q: int, r: int)
    requires m > 0 && n == m * q + r && 0 <= r < m
    ensures n % m == r
  {
    DivMod(n, m);
    var k := n / m - q;
    assert m * k == r - n % m;
    Between(m, k);
  }

  lemma Between(m: int, k: int)
    requires m > 0
    ensures k >= 1 ==> m * k >= m
    ensures k <= -1 ==> m * k <= -m
  {
  }

  lemma AllBits(n: nat, i: nat)
    requires n < Bit(i)
    ensures Low(n, i) == n
  {
    hide Bit;
    ModUnique(n, Bit(i), 0, n);
  }

  /** The power that the bits done so far add up to. */
  function Signed(negative: bool, n: int): int {
    if negative then -n else n
  }

  const INT_MIN := -0x8000_0000
  const INT_MAX := 0x7FFF_FFFF

  predicate IsInt(n: int) {
    INT_MIN <= n <= INT_MAX
  }

  /** The `int` that a number next to the range wraps round to. */
  function Wrapped(n: int): (w: int)
    requires 2 * INT_MIN <= n <= 2 * INT_MAX + 1
    ensures IsInt(w) && (w == n || w == n - 2 * (INT_MAX + 1) || w == n + 2 * (INT_MAX + 1))
    ensures IsInt(n) ==> w == n
  {
    if n > INT_MAX then n - 2 * (INT_MAX + 1) else if n < INT_MIN then n + 2 * (INT_MAX + 1) else n
  }

  /** What the loop of `ldexpl` works on, or its result. */
  datatype Pass = Going(x: real, factor: real, bit: int) | Done(x: real)

  /** `exp & bit`, where `bit` is a power of two, the sign bit, which no positive exponent has, or 0. */
  predicate HasBit(e: nat, bit: int) {
    bit > 0 && (e / bit) % 2 == 1
  }

  function Entry(arg: real, exp: int): Pass {
    Going(arg, if exp < 0 then 0.5 else 2.0, 1)
  }

  /** One trip round the loop, the doubling of `bit` wrapping round. */
  function Trip(p: Pass, e: nat): Pass
    requires p.Going? ==> IsInt(p.bit)
  {
    if p.Done? then p else
      var x := if HasBit(e, p.bit) then Scaled(p.x, p.factor) else p.x;
      var bit := Wrapped(p.bit * 2);
      if bit > e then Done(x) else Going(x, Scaled(p.factor, p.factor), bit)
  }

  function Trips(p: Pass, e: nat, n: nat): (q: Pass)
    requires p.Going? ==> IsInt(p.bit)
    ensures q.Going? ==> IsInt(q.bit)
  {
    if n == 0 then p else Trip(Trips(p, e, n - 1), e)
  }

  /** When `bit` is 0 the loop is never left. */
  lemma {:induction false} ZeroBitStays(p: Pass, e: nat, k: nat, n: nat)
    requires p.Going? && IsInt(p.bit) && Trips(p, e, k).Going? && Trips(p, e, k).bit == 0
    ensures Trips(p, e, n).Going? && (n >= k ==> Trips(p, e, n).bit == 0)
    decreases if n >= k then n - k else k - n
  {
    if n > k {
      ZeroBitStays(p, e, k, n - 1);
    } else if n < k {
      ZeroBitStays(p, e, k, n + 1);
    }
  }

  lemma IntBits()
    ensures Bit(30) == 0x4000_0000 && Bit(31) == 0x8000_0000
  {
    assert Bit(6) == 64;
    assert Bit(12) == 64 * 64;
    assert Bit(18) == 64 * 64 * 64;
    assert Bit(24) == 64 * 64 * 64 * 64;
  }

  function Magnitude(exp: int): (e: nat) {
    if exp < 0 then -exp else exp
  }

  /** A number scaled by a power of two. */
  function Times(x: real, n: int): real {
    x * Pow2(n)
  }

  /** Before trip `i`: the bits below `i` are done. Trip 31 is the one with the sign bit. */
  predicate AtTrip(arg: real, exp: int, i: nat, p: Pass) {
    var e := Magnitude(exp);
    p.Going? && i <= 31 &&
    if i == 31 then p.bit == INT_MIN && e >= Bit(30)
    else p.bit == Bit(i) <= e && p.factor == Pow2(Signed(exp < 0, Bit(i))) &&
         p.x == Times(arg, Signed(exp < 0, Low(e, i)))
  }

  lemma Entered(arg: real, exp: int)
    requires exp != 0
    ensures AtTrip(arg, exp, 0, Entry(arg, exp))
  {
    Basics();
    NoBits(Magnitude(exp));
    Stay(arg);
  }

  /** A trip does its bit. */
  lemma BitDone(arg: real, negative: bool, e: nat, i: nat, x: real, factor: real)
    requires factor == Pow2(Signed(negative, Bit(i))) && x == Times(arg, Signed(negative, Low(e, i)))
    ensures (if HasBit(e, Bit(i)) then Scaled(x, factor) else x) == Times(arg, Signed(negative, Low(e, i + 1)))
    ensures Scaled(factor, factor) == Pow2(Signed(negative, Bit(i + 1)))
  {
    hide Pow2, Bit, Low;
    NextBit(e, i);
    BitNext(i);
    Squared(Bit(i));
    Pow2Sum(Signed(negative, Low(e, i)), Signed(negative, Bit(i)));
    Regroup(arg, Pow2(Signed(negative, Low(e, i))), factor);
  }

  lemma SmallBits(i: nat)
    ensures i <= 29 ==> Bit(i + 1) <= Bit(30)
    ensures i >= 31 ==> Bit(i) >= Bit(31)
    ensures Bit(30) == 0x4000_0000 && Bit(31) == 0x8000_0000
  {
    hide Bit;
    IntBits();
    if i <= 29 { BitIncreases(i + 1, 30); }
    if i >= 31 { BitIncreases(31, i); }
  }

  /** A trip before the last bit of an `int` either ends with the product or leads to the next. */
  lemma OneTrip(arg: real, exp: int, i: nat, p: Pass)
    requires AtTrip(arg, exp, i, p) && i < 31 && IsInt(exp) && exp != INT_MIN && IsInt(p.bit)
    ensures var q := Trip(p, Magnitude(exp));
            if q.Done? then Magnitude(exp) < Bit(30) && q.x == Times(arg, exp) else AtTrip(arg, exp, i + 1, q)
  {
    hide Pow2, Bit, Low, Trip, Wrapped, Times, HasBit, Scaled;
    var e := Magnitude(exp);
    SmallBits(i);
    TripIs(p, e);
    BitDone(arg, exp < 0, e, i, p.x, p.factor);
    Doubled(i, e);
    if i < 30 && Bit(i + 1) > e {
      AllBits(e, i + 1);
      assert Signed(exp < 0, e) == exp;
    }
  }

  /** Doubling a bit of an `int`: only the last one wraps round. */
  lemma Doubled(i: nat, e: nat)
    requires i < 31
    ensures IsInt(Bit(i)) && Wrapped(Bit(i) * 2) == (if i == 30 then INT_MIN else Bit(i + 1))
  {
    hide Bit;
    SmallBits(i);
    BitNext(i);
    IntBits();
  }

  /** The trip with the sign bit leaves 0, which then stays. */
  lemma LastTrip(arg: real, exp: int)
    requires IsInt(exp) && Trips(Entry(arg, exp), Magnitude(exp), 31).Going?
    requires Trips(Entry(arg, exp), Magnitude(exp), 31).bit == INT_MIN
    ensures forall n: nat :: Trips(Entry(arg, exp), Magnitude(exp), n).Going?
  {
    var start, e := Entry(arg, exp), Magnitude(exp);
    assert Trips(start, e, 32) == Trip(Trips(start, e, 31), e);
    forall n: nat
      ensures Trips(start, e, n).Going?
    {
      ZeroBitStays(start, e, 32, n);
    }
  }

  /** The loop of `ldexpl`. It is given up as soon as `bit` is the sign bit, since it is never left then. */
  method BitLoop(arg: real, exp: int) returns (ends: bool, x: real)
    requires IsInt(exp) && exp != 0 && exp != INT_MIN
    ensures ends <==> Magnitude(exp) < Bit(30)
    ensures ends ==> x == Times(arg, exp)
    ensures ends ==> exists n: nat :: Trips(Entry(arg, exp), Magnitude(exp), n) == Done(x)
    ensures !ends ==> forall n: nat :: Trips(Entry(arg, exp), Magnitude(exp), n).Going?
  {
    hide Pow2, Bit, AtTrip, Trip, Times, Scaled, HasBit, Wrapped, Low;
    var e: nat := if exp < 0 then -exp else exp;
    var factor := if exp < 0 then 0.5 else 2.0;
    var bit := 1;
    x := arg;
    ghost var i: nat := 0;
    ghost var start := Entry(arg, exp);
    Entered(arg, exp);
    while bit != INT_MIN
      invariant IsInt(bit) && AtTrip(arg, exp, i, Going(x, factor, bit))
      invariant Trips(start, e, i) == Going(x, factor, bit)
      decreases 31 - i
    {
      ghost var p := Going(x, factor, bit);
      SignBitTrip(arg, exp, i, p);
      OneTrip(arg, exp, i, p);
      TripIs(p, e);
      assert Trips(start, e, i + 1) == Trip(p, e);
      if HasBit(e, bit) {
        x := Scaled(x, factor);
      }
      bit := Wrapped(bit * 2);
      i := i + 1;
      if bit > e {
        return true, x;
      }
      factor := Scaled(factor, factor);
    }
    ends := false;
    SignBitTrip(arg, exp, i, Going(x, factor, bit));
    LastTrip(arg, exp);
  }

  lemma SignBitTrip(arg: real, exp: int, i: nat, p: Pass)
    requires AtTrip(arg, exp, i, p)
    ensures p.bit == INT_MIN <==> i == 31
    ensures i <= 31 && (i == 31 ==> Magnitude(exp) >= Bit(30))
  {
  }

  lemma TripIs(p: Pass, e: nat)
    requires p.Going? && IsInt(p.bit)
    ensures var x := if HasBit(e, p.bit) then Scaled(p.x, p.factor) else p.x;
            var bit := Wrapped(p.bit * 2);
            Trip(p, e) == if bit > e then Done(x) else Going(x, Scaled(p.factor, p.factor), bit)
  {
  }

  /** `ldexpl` of a number that is neither NaN nor infinite, and an `int`.  The doubling of `bit` and the
      negation of the exponent wrap round, so that the product comes back exactly for exponents below 2^30 in
      absolute value; from there on the loop is never left, and with the least exponent it is never entered. */
  method LdExp(arg: real, exp: int) returns (ends: bool, x: real)
    requires IsInt(exp)
    ensures ends && x == arg * Pow2(exp) <==> arg == 0.0 || Magnitude(exp) < Bit(30)
    ensures ends <==> arg == 0.0 || Magnitude(exp) < Bit(30) || exp == INT_MIN
    ensures exp == INT_MIN ==> x == arg
    ensures !ends ==> forall n: nat :: Trips(Entry(arg, exp), Magnitude(exp), n).Going?
    ensures ends && arg != 0.0 && exp != 0 && exp != INT_MIN ==>
      exists n: nat :: Trips(Entry(arg, exp), Magnitude(exp), n) == Done(x)
  {
    hide Pow2, Bit;
    Basics();
    IntBits();
    ends, x := true, arg;
    Nothing(Pow2(exp));
    Stay(arg);
    if !(x + x == x) {
      var e := Wrapped(if exp < 0 then -exp else exp);
      if e > 0 {
        ends, x := BitLoop(arg, exp);
      } else if exp < 0 {
        Differs(arg, exp);
      }
    }
  }

  lemma Nothing(f: real)
    ensures 0.0 * f == 0.0
  {
  }

  lemma NoBits(n: nat)
    ensures Low(n, 0) == 0
  {
  }

  lemma Differs(x: real, n: int)
    requires x != 0.0 && n != 0
    ensures Times(x, n) != x
  {
    hide Pow2;
    Basics();
    if n < 0 { Pow2Increases(n, 0); } else { Pow2Increases(0, n); }
    if x * Pow2(n) == x * 1.0 { CancelLeft(x, Pow2(n), 1.0); }
  }

  lemma CancelLeft(x: real, f: real, g: real)
    requires x * f == x * g && x != 0.0
    ensures f == g
  {
    assert x * (f - g) == 0.0;
  }

  /** Which exponents `frexp` finds that `ldexpl` can take. */
  lemma TakenBack(x0: real, x: real, e: int)
    requires x * Pow2(e) == x0 && 0.5 <= x < 1.0
    ensures Magnitude(e) < Bit(30) <==> Pow2(-Bit(30)) <= x0 < Pow2(Bit(30) - 1)
  {
    hide Bit, Pow2;
    MantissaBounds(x0, x, e);
    if x0 < Pow2(Bit(30) - 1) { Pow2Order(e - 1, Bit(30) - 1, x0); }
    if e < Bit(30) - 1 { Pow2Increases(e, Bit(30) - 1); }
    if Pow2(-Bit(30)) <= x0 { Pow2Order(-Bit(30), e, x0); }
    if -Bit(30) < e - 1 { Pow2Increases(-Bit(30), e - 1); }
  }

  /** `ldexpl` gives back what `frexp` split exactly if the exponent is below 2^30 in absolute value. */
  lemma GivenBack(arg: real, y: real, e: int, ends: bool, x: real)
    requires arg != 0.0 && Times(y, e) == arg && 0.5 <= Abs(y) < 1.0 && -Bit(31) < e <= Bit(31)
    requires e < Bit(31) ==> (ends && x == arg <==> Magnitude(e) < Bit(30))
    requires e == Bit(31) ==> x == y
    ensures ends && x == arg <==> Pow2(-Bit(30)) <= Abs(arg) < Pow2(Bit(30) - 1)
  {
    hide Pow2, Bit;
    IntBits();
    Pow2Positive(e);
    Sign(y, Pow2(e));
    TakenBack(Abs(arg), Abs(y), e);
    if e == Bit(31) {
      Differs(y, e);
    }
  }

  /** Scaling undoes splitting, exactly for 0 and for numbers whose exponent is below 2^30 in absolute value. */
  method RoundTrip(arg: real) returns (ends: bool, x: real)
    requires arg != 0.0 ==> Pow2(-Bit(WIDTH)) < Abs(arg) < Pow2(Bit(WIDTH))
    ensures ends && x == arg <==> arg == 0.0 || Pow2(-Bit(30)) <= Abs(arg) < Pow2(Bit(30) - 1)
  {
    hide Pow2, Bit, Abs;
    IntBits();
    var y, e := FrExp(arg);
    var n := if e > INT_MAX then INT_MIN else e;
    ends, x := LdExp(y, n);
    if arg == 0.0 {
      Nothing(Pow2(n));
    } else {
      NotZero(y);
      GivenBack(arg, y, e, ends, x);
    }
  }

  lemma NotZero(y: real)
    ensures Abs(y) > 0.0 <==> y != 0.0
  {
  }
}
