/** `isPrime` of utils.js (lines 155-165): trial division by every
    candidate whose square does not exceed the value, stopping at the first
    divisor found. Unlike the other number checks it never throws: anything
    that is not an integer of at least two is simply not prime. */
module Primality {
  import opened JsRuntime
  import opened TypeChecks
  import opened NumberChecks

  /** The textbook definition: at least two, and no divisor strictly
      between one and itself. */
  predicate Prime(n: int) {
    n >= 2 && forall d :: 2 <= d < n ==> n % d != 0
  }

  /** What the loop establishes: no candidate `d >= 2` with `d * d <= n`
      divides `n`. */
  ghost predicate NoDivisorUpToRoot(n: int) {
    forall d :: 2 <= d && d * d <= n ==> n % d != 0
  }

  /** The value `isPrime` tests, when it is an integer of at least two. */
  predicate IsPrimeCandidate(v: Value) {
    IsInteger(v) && v.n.x >= 2.0
  }

  lemma SquareGrows(a: int, b: int)
    requires 0 <= a <= b
    ensures a * a <= b * b
  {
    assert a * a <= a * b;
    assert a * b <= b * b;
  }

  /** A divisor above the square root has a partner below it. */
  lemma CoDivisor(n: int, d: int)
    requires n >= 2 && 2 <= d < n && n % d == 0 && d * d > n
    ensures var e := n / d; 2 <= e && e * e <= n && n % e == 0
  {
    var e := n / d;
    assert n == d * e;
    MulLeftMono(d, 0, e);
    assert d * 1 == d;
    assert e >= 2;
    MulLeftMono(d, e, d);
    MulLeftMono(e, e, d);
    assert e * d == n;
    MultipleHasZeroRemainder(e, d);
  }

  /** Checking candidates up to the square root suffices: for `n >= 2`
      the loop's condition is exactly primality. */
  lemma {:induction false} RootBoundSuffices(n: int)
    requires n >= 2
    ensures NoDivisorUpToRoot(n) <==> Prime(n)
  {
    if NoDivisorUpToRoot(n) {
      forall d | 2 <= d < n ensures n % d != 0 {
        if n % d == 0 {
          if d * d <= n {
          } else {
            CoDivisor(n, d);
          }
        }
      }
    }
    if Prime(n) {
      forall d | 2 <= d && d * d <= n ensures n % d != 0 {
        if d >= n {
          SquareGrows(n, d);
          assert n * n <= n;
        }
      }
    }
  }

  /** `isPrime`: `false` for everything but integers of at least two; for
      those, `true` exactly when no candidate up to the square root divides
      the value, which is primality. */
  method IsPrime(v: Value) returns (r: bool)
    ensures r <==> IsPrimeCandidate(v) && NoDivisorUpToRoot(v.n.x.Floor)
    ensures r <==> IsPrimeCandidate(v) && Prime(v.n.x.Floor)
  {
    if !IsInteger(v) || v.n.x < 2.0 {
      return false;
    }
    var n := v.n.x.Floor;
    assert v.n.x == n as real;
    RootBoundSuffices(n);
    var i := 2;
    while i * i <= n
      invariant 2 <= i
      invariant forall d :: 2 <= d < i ==> n % d != 0
      decreases n - i
    {
      assert i <= i * i;  // so `n - i` stays non-negative for `decreases`
      WholeQuotientIffDivides(n, i);
      if NumStrictEq(JsRem(v.n, Finite(i as real)), Finite(0.0)) {
        return false;
      }
      i := i + 1;
    }
    forall d | 2 <= d && d * d <= n ensures n % d != 0 {
      if d >= i {
        SquareGrows(i, d);
      }
    }
    return true;
  }
}
