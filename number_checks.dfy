/** The number checks of utils.js (lines 113-153): parity, sign, range and
    divisibility of a finite number. Only the first argument is checked;
    the bounds of `isInRange` and the divisor of `isDivisibleBy` are taken
    as they come and compared or divided with JavaScript's number rules. */
module NumberChecks {
  import opened JsRuntime
  import opened Wrappers
  import opened TypeChecks
  import opened Errors

  /** `y` is a whole number. */
  predicate IsWhole(y: real) {
    y.Floor as real == y
  }

  /** A product by a non-zero factor is at least that factor in size. */
  lemma ProductBounds(a: int, k: int)
    requires a != 0
    ensures k >= 1 ==> (if a > 0 then a * k >= a else a * k <= a)
    ensures k <= -1 ==> (if a > 0 then a * k <= -a else a * k >= -a)
  {
    if k >= 1 {
      assert a * k == a + a * (k - 1);
    }
    if k <= -1 {
      assert a * k == -a + a * (k + 1);
    }
  }

  /** Multiplying by a positive factor keeps strict and weak order. */
  lemma MulLeftMono(a: int, b: int, c: int)
    requires a > 0
    ensures b < c <==> a * b < a * c
    ensures b <= c <==> a * b <= a * c
  {
    assert a * c - a * b == a * (c - b);
    ProductBounds(a, c - b);
  }

  /** `a * b` leaves no remainder when divided by `a`. */
  lemma MultipleHasZeroRemainder(a: int, b: int)
    requires a != 0
    ensures (a * b) % a == 0
  {
    var q, r := (a * b) / a, (a * b) % a;
    assert a * b == a * q + r;
    assert 0 <= r < (if a > 0 then a else -a);
    assert a * (b - q) == r;
    ProductBounds(a, b - q);
  }

  /** Casting to real commutes with multiplication. */
  lemma CastMul(a: int, b: int)
    ensures (a * b) as real == (a as real) * (b as real)
  {
  }

  /** For integers, a whole real quotient is the same as a zero remainder. */
  lemma WholeQuotientIffDivides(k: int, d: int)
    requires d != 0
    ensures IsWhole((k as real) / (d as real)) <==> k % d == 0
  {
    var y := (k as real) / (d as real);
    assert y * (d as real) == k as real;
    if k % d == 0 {
      var q := k / d;
      assert k == d * q;
      CastMul(d, q);
      assert y == q as real;
    }
    if IsWhole(y) {
      var m := y.Floor;
      assert y == m as real;
      CastMul(m, d);
      assert k == m * d;
      MultipleHasZeroRemainder(d, m);
      assert d * m == m * d;
    }
  }

  /** `value % 2 === 0` for a finite value. */
  predicate RemainderTwoIsZero(x: real) {
    NumStrictEq(JsRem(Finite(x), Finite(2.0)), Finite(0.0))
  }

  /** `isOdd`: a finite number is required; the result says whether it is
      not a whole multiple of two (so 3.5 is odd, and so is -3). */
  function IsOdd(v: Value): (r: Result<bool, InvalidArgumentError>)
    ensures r.Err? <==> !IsNumber(v)
    ensures r.Err? ==> r.error == NewInvalidArgumentError("isOdd", "a finite number", v)
    ensures r.Ok? ==> (r.value <==> !IsWhole(v.n.x / 2.0))
  {
    if !IsNumber(v) then Err(NewInvalidArgumentError("isOdd", "a finite number", v))
    else Ok(!RemainderTwoIsZero(v.n.x))
  }

  /** `isEven`: a finite number is required; the result says whether it is
      a whole multiple of two. */
  function IsEven(v: Value): (r: Result<bool, InvalidArgumentError>)
    ensures r.Err? <==> !IsNumber(v)
    ensures r.Err? ==> r.error == NewInvalidArgumentError("isEven", "a finite number", v)
    ensures r.Ok? ==> (r.value <==> IsWhole(v.n.x / 2.0))
  {
    if !IsNumber(v) then Err(NewInvalidArgumentError("isEven", "a finite number", v))
    else Ok(RemainderTwoIsZero(v.n.x))
  }

  /** Every finite number is odd or even and never both; anything else
      makes both throw. */
  lemma OddIsNotEven(v: Value)
    ensures IsOdd(v).Ok? <==> IsEven(v).Ok?
    ensures IsOdd(v).Ok? ==> IsOdd(v).value == !IsEven(v).value
  {
  }

  /** On integers, `isEven` is divisibility by two. */
  lemma EvenOnIntegers(k: int)
    ensures IsEven(Num(Finite(k as real))) == Ok(k % 2 == 0)
    ensures IsOdd(Num(Finite(k as real))) == Ok(k % 2 != 0)
  {
    WholeQuotientIffDivides(k, 2);
  }

  /** `isPositiveNumber`: a finite number is required; the result says
      whether it is above zero. */
  function IsPositiveNumber(v: Value): (r: Result<bool, InvalidArgumentError>)
    ensures r.Err? <==> !IsNumber(v)
    ensures r.Err? ==> r.error == NewInvalidArgumentError("isPositiveNumber", "a finite number", v)
    ensures r.Ok? ==> (r.value <==> NumLt(Finite(0.0), v.n))
  {
    if !IsNumber(v) then Err(NewInvalidArgumentError("isPositiveNumber", "a finite number", v))
    else Ok(v.n.x > 0.0)
  }

  /** `isNegativeNumber`: a finite number is required; the result says
      whether it is below zero. */
  function IsNegativeNumber(v: Value): (r: Result<bool, InvalidArgumentError>)
    ensures r.Err? <==> !IsNumber(v)
    ensures r.Err? ==> r.error == NewInvalidArgumentError("isNegativeNumber", "a finite number", v)
    ensures r.Ok? ==> (r.value <==> NumLt(v.n, Finite(0.0)))
  {
    if !IsNumber(v) then Err(NewInvalidArgumentError("isNegativeNumber", "a finite number", v))
    else Ok(v.n.x < 0.0)
  }

  /** A finite number is never both positive and negative, and is neither
      exactly when it is zero. */
  lemma SignTrichotomy(v: Value)
    requires IsNumber(v)
    ensures !(IsPositiveNumber(v).value && IsNegativeNumber(v).value)
    ensures !IsPositiveNumber(v).value && !IsNegativeNumber(v).value <==> v == Num(Finite(0.0))
  {
  }

  /** `isInRange`: a finite number is required for the value only; the
      result says whether it lies between the bounds, both included. */
  function IsInRange(v: Value, min: Number, max: Number): (r: Result<bool, InvalidArgumentError>)
    ensures r.Err? <==> !IsNumber(v)
    ensures r.Err? ==> r.error == NewInvalidArgumentError("isInRange", "a finite number", v)
    ensures r.Ok? && min.Finite? && max.Finite? ==> (r.value <==> min.x <= v.n.x <= max.x)
    ensures r.Ok? ==> (r.value <==>
      (min.NegInf? || (min.Finite? && min.x <= v.n.x)) &&
      (max.PosInf? || (max.Finite? && v.n.x <= max.x)))
  {
    if !IsNumber(v) then Err(NewInvalidArgumentError("isInRange", "a finite number", v))
    else Ok(NumLe(min, v.n) && NumLe(v.n, max))
  }

  /** Nothing lies at or above `a` and at or below a `c` smaller than `a`. */
  lemma NumOrderGap(a: Number, b: Number, c: Number)
    requires NumLt(c, a) && NumLe(a, b)
    ensures !NumLe(b, c)
  {
  }

  /** With the bounds the wrong way round, or a NaN bound, nothing is in
      range; infinite bounds leave that side open. */
  lemma InRangeDegenerateBounds(v: Value, min: Number, max: Number)
    requires IsNumber(v)
    ensures NumLt(max, min) ==> IsInRange(v, min, max) == Ok(false)
    ensures min.NaN? || max.NaN? ==> IsInRange(v, min, max) == Ok(false)
    ensures IsInRange(v, NegInf, PosInf) == Ok(true)
  {
    if NumLt(max, min) && NumLe(min, v.n) {
      NumOrderGap(min, v.n, max);
    }
  }

  /** `isDivisibleBy`: a finite number is required for the value only; the
      result says whether `value % divisor` is zero: for a finite non-zero
      divisor, whether the quotient is whole; for an infinite divisor,
      whether the value is zero; for zero or NaN, never. */
  function IsDivisibleBy(v: Value, divisor: Number): (r: Result<bool, InvalidArgumentError>)
    ensures r.Err? <==> !IsNumber(v)
    ensures r.Err? ==> r.error == NewInvalidArgumentError("isDivisibleBy", "a finite number", v)
    ensures r.Ok? ==> (r.value <==>
      (divisor.Finite? && divisor.x != 0.0 && IsWhole(v.n.x / divisor.x)) ||
      ((divisor.PosInf? || divisor.NegInf?) && v.n.x == 0.0))
  {
    if !IsNumber(v) then Err(NewInvalidArgumentError("isDivisibleBy", "a finite number", v))
    else Ok(NumStrictEq(JsRem(v.n, divisor), Finite(0.0)))
  }

  /** On integers with a non-zero divisor, `isDivisibleBy` is divisibility. */
  lemma DivisibleOnIntegers(k: int, d: int)
    requires d != 0
    ensures IsDivisibleBy(Num(Finite(k as real)), Finite(d as real)) == Ok(k % d == 0)
  {
    WholeQuotientIffDivides(k, d);
  }
}
