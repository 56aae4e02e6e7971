/**
 Trial-division primality tests of is_prime_lib/is_prime.cpp.

 The argument is a `uint64_t`; it is modelled as a `nat` no larger than
 `MAX_EXACT` = (2^32 - 1)^2. Up to that bound the square `x * x` that the loop
 guards compute never wraps modulo 2^64, which the methods below prove about
 the guard written with explicit wrap-around (`Mul64`).

 The loops stop as soon as `x * x < val` fails, so a divisor `x` with
 `x * x == val` is never tried: the tests accept exactly the primes and the
 squares of primes (4, 9, 25, ...), not only the primes. `IsPrimeCorrected` and
 `IsPrimeFastCorrected` use the guard `x * x <= val` and accept exactly the primes.
 */
module Primality {

  const TWO_POW_64: nat := 0x1_0000_0000_0000_0000

  /** (2^32 - 1)^2: the largest argument for which `x * x` cannot wrap. */
  const MAX_EXACT: nat := 0xFFFF_FFFE_0000_0001

  const MAX_ROOT: nat := 0xFFFF_FFFF

  /** Unsigned 64-bit multiplication. */
  function Mul64(a: nat, b: nat): nat {
    (a * b) % TWO_POW_64
  }

  predicate Divides(x: nat, val: nat)
    requires x > 0
  {
    val % x == 0
  }

  /** The textbook notion: at least 2 and no divisor strictly between 1 and itself. */
  ghost predicate IsPrimeNumber(val: nat) {
    val >= 2 && forall d :: 2 <= d < val ==> !Divides(d, val)
  }

  /** No `x >= 2` with `x * x < val` divides `val`. */
  ghost predicate NoSmallDivisor(val: nat) {
    forall x: nat :: 2 <= x && x * x < val ==> !Divides(x, val)
  }

  /** No odd `x >= 3` with `x * x < val` divides `val`. */
  ghost predicate NoSmallOddDivisor(val: nat) {
    forall x: nat :: 3 <= x && x % 2 == 1 && x * x < val ==> !Divides(x, val)
  }

  /** What `IsPrime` answers. */
  ghost predicate TrialDivision(val: nat) {
    val >= 2 && NoSmallDivisor(val)
  }

  /** What `IsPrimeFast` answers. */
  ghost predicate FastTrialDivision(val: nat) {
    val == 2 || (val >= 3 && val % 2 == 1 && NoSmallOddDivisor(val))
  }

  lemma SquareMonotone(a: nat, b: nat)
    requires a <= b
    ensures a * a <= b * b
  {
    assert a * a <= a * b <= b * b;
  }

  /** Below `MAX_ROOT` the 64-bit square of `x` is the true square. */
  lemma Mul64Exact(x: nat)
    requires x <= MAX_ROOT
    ensures Mul64(x, x) == x * x
  {
    SquareMonotone(x, MAX_ROOT);
  }

  /** `IsPrime(uint64_t val)`. */
  method IsPrime(val: nat) returns (r: bool)
    requires val <= MAX_EXACT
    ensures val < 2 ==> !r
    ensures val >= 2 && !r ==> exists x: nat :: 2 <= x && x * x < val && Divides(x, val)
    ensures r <==> TrialDivision(val)
  {
    if val < 2 {
      return false;
    }
    var x: nat := 2;
    Mul64Exact(x);
    while Mul64(x, x) < val
      invariant 2 <= x <= MAX_ROOT
      invariant forall y: nat :: 2 <= y < x ==> !Divides(y, val)
      decreases val - x
    {
      Mul64Exact(x);
      assert x < x * x;
      if val % x == 0 {
        assert x * x < val && Divides(x, val);
        return false;
      }
      if x == MAX_ROOT {
        SquareMonotone(MAX_ROOT, x);
        assert false;
      }
      x := x + 1;
      Mul64Exact(x);
    }
    Mul64Exact(x);
    TrialDone(val, x);
    return true;
  }

  /** Once `x * x` reaches `val`, the divisors below `x` were all there was to try. */
  lemma TrialDone(val: nat, x: nat)
    requires 2 <= x && x * x >= val
    requires forall y: nat :: 2 <= y < x ==> !Divides(y, val)
    ensures NoSmallDivisor(val)
  {
    forall y: nat | 2 <= y && y * y < val
      ensures !Divides(y, val)
    {
      if y >= x {
        SquareMonotone(x, y);
      }
    }
  }

  /** `IsPrimeFast(uint64_t val)`: 2 and the even numbers first, then odd trial divisors. */
  method IsPrimeFast(val: nat) returns (r: bool)
    requires val <= MAX_EXACT
    ensures val < 2 ==> !r
    ensures val == 2 ==> r
    ensures val != 2 && val % 2 == 0 ==> !r
    ensures val >= 3 && val % 2 == 1 && !r ==> exists x: nat :: 2 <= x && x * x < val && Divides(x, val)
    ensures r <==> FastTrialDivision(val)
  {
    if val < 2 {
      return false;
    }
    if val == 2 {
      return true;
    }
    if val % 2 == 0 {
      return false;
    }
    var x: nat := 3;
    Mul64Exact(x);
    while Mul64(x, x) < val
      invariant 3 <= x <= MAX_ROOT && x % 2 == 1
      invariant forall y: nat :: 3 <= y < x && y % 2 == 1 ==> !Divides(y, val)
      decreases val - x
    {
      Mul64Exact(x);
      assert x < x * x;
      if val % x == 0 {
        assert x * x < val && Divides(x, val);
        return false;
      }
      if x == MAX_ROOT {
        assert false;
      }
      assert x <= MAX_ROOT - 2;
      OddStep(val, x);
      x := x + 2;
      Mul64Exact(x);
    }
    Mul64Exact(x);
    OddTrialDone(val, x);
    return true;
  }

  /** An odd trial divisor `x` that fails extends the tried range to `x + 2`. */
  lemma OddStep(val: nat, x: nat)
    requires 3 <= x && x % 2 == 1 && !Divides(x, val)
    requires forall y: nat :: 3 <= y < x && y % 2 == 1 ==> !Divides(y, val)
    ensures (x + 2) % 2 == 1
    ensures forall y: nat :: 3 <= y < x + 2 && y % 2 == 1 ==> !Divides(y, val)
  {
    assert (x + 1) % 2 == 0;
  }

  /** Once `x * x` reaches `val`, the odd divisors below `x` were all there was to try. */
  lemma OddTrialDone(val: nat, x: nat)
    requires 3 <= x && x * x >= val
    requires forall y: nat :: 3 <= y < x && y % 2 == 1 ==> !Divides(y, val)
    ensures NoSmallOddDivisor(val)
  {
    forall y: nat | 3 <= y && y % 2 == 1 && y * y < val
      ensures !Divides(y, val)
    {
      if y >= x {
        SquareMonotone(x, y);
      }
    }
  }

  /** A number with an even divisor is even. */
  lemma EvenDivisorMakesEven(val: nat, x: nat)
    requires x >= 2 && x % 2 == 0 && Divides(x, val)
    ensures val % 2 == 0
  {
    var q := val / x;
    var h := x / 2;
    assert val == x * q;
    assert x * q == 2 * (h * q);
  }

  /** An odd number has no even divisor. */
  lemma OddHasNoEvenDivisor(val: nat, x: nat)
    requires val % 2 == 1 && x >= 2 && x % 2 == 0
    ensures !Divides(x, val)
  {
    if Divides(x, val) {
      EvenDivisorMakesEven(val, x);
    }
  }

  /** The two tests agree on every argument except 4, which only `IsPrime` accepts. */
  lemma {:induction false} FastAgreesExceptFour(val: nat)
    ensures val != 4 ==> (TrialDivision(val) <==> FastTrialDivision(val))
    ensures TrialDivision(4) && !FastTrialDivision(4)
  {
    forall x: nat | 2 <= x && x * x < 4
      ensures false
    {
      SquareMonotone(2, x);
    }
    if val >= 3 && val % 2 == 1 {
      forall x: nat | 2 <= x && x * x < val && x % 2 == 0
        ensures !Divides(x, val)
      {
        OddHasNoEvenDivisor(val, x);
      }
    }
    if val >= 5 && val % 2 == 0 {
      assert 2 * 2 < val && Divides(2, val);
    }
    if val == 2 {
      forall x: nat | 2 <= x
        ensures x * x >= 2
      {
        SquareMonotone(2, x);
      }
    }
  }

  /** 4, 9 and 25 are accepted by `IsPrime` although they are not prime, and 9 and 25 by
      `IsPrimeFast` too. */
  lemma SquaresOfPrimesAccepted()
    ensures TrialDivision(4) && !IsPrimeNumber(4)
    ensures TrialDivision(9) && FastTrialDivision(9) && !IsPrimeNumber(9)
    ensures TrialDivision(25) && FastTrialDivision(25) && !IsPrimeNumber(25)
  {
    assert Divides(2, 4) && Divides(3, 9) && Divides(5, 25);
    forall x: nat | 2 <= x && x * x < 25
      ensures x <= 4
    {
      if x >= 5 {
        SquareMonotone(5, x);
      }
    }
    forall x: nat | 2 <= x && x * x < 9
      ensures x == 2
    {
      if x >= 3 {
        SquareMonotone(3, x);
      }
    }
    forall x: nat | 2 <= x && x * x < 4
      ensures false
    {
      SquareMonotone(2, x);
    }
  }
  /** The least divisor of `val` that is at least `d`. */
  function LeastDivisorFrom(val: nat, d: nat): (r: nat)
    requires 2 <= d <= val
    ensures d <= r <= val && Divides(r, val)
    ensures forall e :: d <= e < r ==> !Divides(e, val)
    decreases val - d
  {
    if Divides(d, val) then d else LeastDivisorFrom(val, d + 1)
  }

  /** A multiple of `a` leaves no remainder: the remainder `r` of `a * b` is itself a
      multiple `a * k` of `a` with `0 <= r < a`, so `k` is 0. */
  lemma MultipleDivisible(a: nat, b: nat)
    requires a > 0
    ensures Divides(a, a * b)
  {
    var q, r := (a * b) / a, (a * b) % a;
    assert a * b == a * q + r && 0 <= r < a;
    var k := b - q;
    assert r == a * k;
    assert k >= 1 ==> a * k >= a;
    assert k <= -1 ==> a * k + a <= 0;
  }

  lemma DividesTransitive(e: nat, r: nat, val: nat)
    requires e > 0 && r > 0 && Divides(e, r) && Divides(r, val)
    ensures Divides(e, val)
  {
    var a, b := r / e, val / r;
    assert r == e * a && val == r * b;
    assert val == e * (a * b);
    MultipleDivisible(e, a * b);
  }

  lemma MulMonotone(a: nat, b: nat, c: nat)
    requires b <= c
    ensures a * b <= a * c
  {
  }

  /** The cofactor of a proper divisor is itself a divisor of at least 2. */
  lemma Cofactor(val: nat, r: nat) returns (k: nat)
    requires 2 <= r < val && Divides(r, val)
    ensures k >= 2 && val == r * k && Divides(k, val)
  {
    k := val / r;
    assert val == r * k;
    MultipleDivisible(k, r);
    assert k * r == val;
  }

  /** A composite number accepted by the trial division is the square of its least
      divisor, which is prime. */
  lemma AcceptedCompositeIsPrimeSquare(val: nat) returns (r: nat)
    requires TrialDivision(val) && !IsPrimeNumber(val)
    ensures IsPrimeNumber(r) && r * r == val
  {
    r := LeastDivisorFrom(val, 2);
    forall e | 2 <= e < r
      ensures !Divides(e, r)
    {
      if Divides(e, r) {
        DividesTransitive(e, r, val);
      }
    }
    var k := Cofactor(val, r);
    MulMonotone(r, r, k);
  }

  /** Exactly what the trial division decides: every prime is accepted, and anything
      accepted is a prime or the square of a prime. */
  lemma TrialDivisionAcceptsPrimesAndPrimeSquares(val: nat)
    ensures IsPrimeNumber(val) ==> TrialDivision(val)
    ensures TrialDivision(val) ==> IsPrimeNumber(val) || exists p: nat :: IsPrimeNumber(p) && p * p == val
  {
    if IsPrimeNumber(val) {
      forall x: nat | 2 <= x && x * x < val
        ensures !Divides(x, val)
      {
        assert x < x * x;
      }
    }
    if TrialDivision(val) && !IsPrimeNumber(val) {
      var r := AcceptedCompositeIsPrimeSquare(val);
    }
  }

  // ---------------------------------------------------------------------------
  // The guard as evidently intended: `x * x <= val`

  /** No `x >= 2` with `x * x <= val` divides `val`. */
  ghost predicate NoDivisorUpToRoot(val: nat) {
    forall x: nat :: 2 <= x && x * x <= val ==> !Divides(x, val)
  }

  /** Trial division up to and including the square root decides primality. */
  lemma RootTrialDecidesPrimality(val: nat)
    ensures (val >= 2 && NoDivisorUpToRoot(val)) <==> IsPrimeNumber(val)
  {
    if IsPrimeNumber(val) {
      forall x: nat | 2 <= x && x * x <= val
        ensures !Divides(x, val)
      {
        assert x < x * x;
      }
    }
    if val >= 2 && NoDivisorUpToRoot(val) && !IsPrimeNumber(val) {
      var d :| 2 <= d < val && Divides(d, val);
      var r := LeastDivisorFrom(val, 2);
      assert r <= d;
      var k := Cofactor(val, r);
      assert k >= r;
      MulMonotone(r, r, k);
      assert false;
    }
  }

  /** Once `x * x` exceeds `val`, the divisors below `x` were all there was to try. */
  lemma RootTrialDone(val: nat, x: nat)
    requires 2 <= x && x * x > val
    requires forall y: nat :: 2 <= y < x ==> !Divides(y, val)
    ensures NoDivisorUpToRoot(val)
  {
    forall y: nat | 2 <= y && y * y <= val
      ensures !Divides(y, val)
    {
      if y >= x {
        SquareMonotone(x, y);
      }
    }
  }

  /** For odd `val`, once `x * x` exceeds `val`, the odd divisors below `x` were all there
      was to try. */
  lemma OddRootTrialDone(val: nat, x: nat)
    requires 3 <= x && x * x > val && val % 2 == 1
    requires forall y: nat :: 3 <= y < x && y % 2 == 1 ==> !Divides(y, val)
    ensures NoDivisorUpToRoot(val)
  {
    forall y: nat | 2 <= y && y * y <= val
      ensures !Divides(y, val)
    {
      if y % 2 == 0 {
        OddHasNoEvenDivisor(val, y);
      } else if y >= x {
        SquareMonotone(x, y);
      }
    }
  }

  /** The largest admissible argument is a multiple of `MAX_ROOT`, so the corrected loops
      stop at `MAX_ROOT` at the latest. */
  lemma RootOfMaxDivides(val: nat)
    requires MAX_ROOT * MAX_ROOT <= val <= MAX_EXACT
    ensures Divides(MAX_ROOT, val)
  {
    assert val == MAX_ROOT * MAX_ROOT;
    MultipleDivisible(MAX_ROOT, MAX_ROOT);
  }

  /** `IsPrime` with the guard `x * x <= val`: true exactly for the primes. */
  method IsPrimeCorrected(val: nat) returns (r: bool)
    requires val <= MAX_EXACT
    ensures r <==> IsPrimeNumber(val)
  {
    if val < 2 {
      return false;
    }
    var x: nat := 2;
    Mul64Exact(x);
    while Mul64(x, x) <= val
      invariant 2 <= x <= MAX_ROOT
      invariant forall y: nat :: 2 <= y < x ==> !Divides(y, val)
      decreases val - x
    {
      Mul64Exact(x);
      assert x < x * x;
      if val % x == 0 {
        assert 2 <= x < val && Divides(x, val);
        return false;
      }
      if x == MAX_ROOT {
        RootOfMaxDivides(val);
        assert false;
      }
      x := x + 1;
      Mul64Exact(x);
    }
    Mul64Exact(x);
    RootTrialDone(val, x);
    RootTrialDecidesPrimality(val);
    return true;
  }

  /** `IsPrimeFast` with the guard `x * x <= val`: true exactly for the primes. */
  method IsPrimeFastCorrected(val: nat) returns (r: bool)
    requires val <= MAX_EXACT
    ensures r <==> IsPrimeNumber(val)
  {
    if val < 2 {
      return false;
    }
    if val == 2 {
      RootTrialDecidesPrimality(2);
      assert NoDivisorUpToRoot(2) by {
        forall x: nat | 2 <= x
          ensures x * x > 2
        {
          SquareMonotone(2, x);
        }
      }
      return true;
    }
    if val % 2 == 0 {
      assert 2 < val && Divides(2, val);
      return false;
    }
    var x: nat := 3;
    Mul64Exact(x);
    while Mul64(x, x) <= val
      invariant 3 <= x <= MAX_ROOT && x % 2 == 1
      invariant forall y: nat :: 3 <= y < x && y % 2 == 1 ==> !Divides(y, val)
      decreases val - x
    {
      Mul64Exact(x);
      assert x < x * x;
      if val % x == 0 {
        assert 2 <= x < val && Divides(x, val);
        return false;
      }
      if x == MAX_ROOT {
        RootOfMaxDivides(val);
        assert false;
      }
      assert x <= MAX_ROOT - 2;
      OddStep(val, x);
      x := x + 2;
      Mul64Exact(x);
    }
    Mul64Exact(x);
    OddRootTrialDone(val, x);
    RootTrialDecidesPrimality(val);
    return true;
  }
}
