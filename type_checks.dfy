/** The primitive checks of utils.js (lines 20-66): total predicates that
    classify any value and never throw. Each body follows the source's own
    test (`typeof`, `instanceof`, truthiness, strict equality); each
    ensures says which values of the universe it admits. */
module TypeChecks {
  import opened JsRuntime

  /** `isString`: a primitive string, or an instance of `String`. */
  predicate IsString(v: Value)
    ensures IsString(v) <==> v.Str? || v.BoxedStr?
  {
    TypeOf(v) == "string" || v.BoxedStr?
  }

  /** `isNumber`: of type number and finite. */
  predicate IsNumber(v: Value)
    ensures IsNumber(v) <==> v.Num? && v.n.Finite?
  {
    TypeOf(v) == "number" && IsFiniteNumber(v.n)
  }

  /** `isInteger`: a finite number that `Math.floor` leaves unchanged. */
  predicate IsInteger(v: Value)
    ensures IsInteger(v) <==> v.Num? && v.n.Finite? && v.n.x == v.n.x.Floor as real
  {
    TypeOf(v) == "number" && IsFiniteNumber(v.n) && NumStrictEq(MathFloor(v.n), v.n)
  }

  /** `isInfinity`: strictly equal to one of the two infinities. */
  predicate IsInfinity(v: Value)
    ensures IsInfinity(v) <==> v.Num? && (v.n.PosInf? || v.n.NegInf?)
  {
    v == Num(PosInf) || v == Num(NegInf)
  }

  /** `isArray`: an array. Every array, even an empty one, is truthy and
      of type object. */
  predicate IsArray(v: Value)
    ensures IsArray(v) <==> v.Array?
    ensures IsArray(v) ==> Truthy(v) && TypeOf(v) == "object"
  {
    v.Array?
  }

  /** `isObject`: truthy, of type object, and not an array; the source
      returns the falsy operand itself, read here as `false`. */
  predicate IsObject(v: Value)
    ensures IsObject(v) <==> v.BoxedStr? || v.Object?
  {
    Truthy(v) && TypeOf(v) == "object" && !IsArray(v)
  }

  /** `isAnyObject`: truthy and of type object, read as a boolean. */
  predicate IsAnyObject(v: Value)
    ensures IsAnyObject(v) <==> v.BoxedStr? || v.Object? || v.Array?
  {
    Truthy(v) && TypeOf(v) == "object"
  }

  /** `isFunction`: of type function. */
  predicate IsFunction(v: Value)
    ensures IsFunction(v) <==> v.Function?
  {
    TypeOf(v) == "function"
  }

  /** `isBoolean`: of type boolean. */
  predicate IsBoolean(v: Value)
    ensures IsBoolean(v) <==> v.Bool?
  {
    TypeOf(v) == "boolean"
  }

  /** `isNull`: strictly equal to null, the one falsy value whose type is
      object. */
  predicate IsNull(v: Value)
    ensures IsNull(v) <==> v.Null?
    ensures IsNull(v) <==> TypeOf(v) == "object" && !Truthy(v)
  {
    v == Null
  }

  /** `isSymbol`: of type symbol. */
  predicate IsSymbol(v: Value)
    ensures IsSymbol(v) <==> v.Symbol?
  {
    TypeOf(v) == "symbol"
  }

  /** `isUndefined`: strictly equal to undefined, the one value whose type
      is undefined. */
  predicate IsUndefined(v: Value)
    ensures IsUndefined(v) <==> v.Undefined?
    ensures IsUndefined(v) <==> TypeOf(v) == "undefined"
  {
    v == Undefined
  }

  /** How the primitive checks relate to one another. */
  lemma TypeCheckRelations(v: Value)
    ensures IsInteger(v) ==> IsNumber(v)
    ensures !(IsNumber(v) && IsInfinity(v))
    ensures IsObject(v) ==> IsAnyObject(v)
    ensures IsArray(v) ==> IsAnyObject(v) && !IsObject(v)
    ensures IsNull(v) ==> !IsObject(v) && !IsAnyObject(v)
    ensures IsAnyObject(v) <==> IsObject(v) || IsArray(v)
  {
  }

  /** `typeof` says "object" exactly for the values `isAnyObject` admits and
      for null, the one falsy value whose `typeof` is "object". */
  lemma TypeOfObjectSplit(v: Value)
    ensures TypeOf(v) == "object" <==> IsAnyObject(v) || IsNull(v)
    ensures IsUndefined(v) <==> TypeOf(v) == "undefined"
  {
  }

  /** The primitive kinds are mutually exclusive: a value passes at most one
      of isUndefined, isNull, isBoolean, isNumber, isInfinity, isSymbol,
      isFunction, isArray, isString; and a string passes isObject only
      when boxed. */
  lemma ExclusiveKinds(v: Value)
    ensures (if IsUndefined(v) then 1 else 0) + (if IsNull(v) then 1 else 0)
          + (if IsBoolean(v) then 1 else 0) + (if IsNumber(v) then 1 else 0)
          + (if IsInfinity(v) then 1 else 0) + (if IsSymbol(v) then 1 else 0)
          + (if IsFunction(v) then 1 else 0) + (if IsArray(v) then 1 else 0)
          + (if IsString(v) then 1 else 0) <= 1
    ensures IsString(v) && IsObject(v) <==> v.BoxedStr?
  {
  }
}
