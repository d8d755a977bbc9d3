/** The slice of JavaScript semantics that utils.js relies on: the value
    universe, `typeof`, truthiness, the number operations `%`, `<=`, `===`
    and `Math.floor`, and the character classes `\s` and `\w` of regular
    expressions. Numbers are mathematical reals plus the three IEEE special
    values; rounding is not modelled. */
module JsRuntime {

  /** A JavaScript number: finite, one of the two infinities, or NaN. */
  datatype Number = Finite(x: real) | PosInf | NegInf | NaN

  /** A JavaScript value. Symbols and functions are told apart by an
      identity; a plain object is its own enumerable string-keyed
      properties; a boxed string (`new String(s)`) wraps its text. */
  datatype Value =
    | Undefined
    | Null
    | Bool(b: bool)
    | Num(n: Number)
    | Str(s: string)
    | BoxedStr(s: string)
    | Symbol(id: nat)
    | Function(id: nat)
    | Array(elems: seq<Value>)
    | Object(props: map<string, Value>)

  /** The `typeof` operator. */
  function TypeOf(v: Value): (t: string)
    ensures t == "object" <==> v.Null? || v.BoxedStr? || v.Array? || v.Object?
    ensures t == "string" <==> v.Str?
    ensures t == "number" <==> v.Num?
    ensures t == "function" <==> v.Function?
  {
    match v
    case Undefined => "undefined"
    case Null => "object"
    case Bool(_) => "boolean"
    case Num(_) => "number"
    case Str(_) => "string"
    case BoxedStr(_) => "object"
    case Symbol(_) => "symbol"
    case Function(_) => "function"
    case Array(_) => "object"
    case Object(_) => "object"
  }

  /** JavaScript truthiness (ToBoolean): the falsy values are undefined,
      null, false, 0, NaN and the empty primitive string. */
  predicate Truthy(v: Value) {
    match v
    case Undefined => false
    case Null => false
    case Bool(b) => b
    case Num(n) => !(n.NaN? || n == Finite(0.0))
    case Str(s) => |s| > 0
    case _ => true
  }

  /** The global `isFinite` applied to a number. */
  predicate IsFiniteNumber(n: Number) {
    n.Finite?
  }

  /** Strict equality `===` on numbers: NaN equals nothing, not even itself. */
  predicate NumStrictEq(a: Number, b: Number) {
    match (a, b)
    case (Finite(x), Finite(y)) => x == y
    case (PosInf, PosInf) => true
    case (NegInf, NegInf) => true
    case _ => false
  }

  /** `a <= b` on numbers: false whenever NaN is involved, otherwise the
      order of the extended real line. */
  predicate NumLe(a: Number, b: Number) {
    match (a, b)
    case (NaN, _) => false
    case (_, NaN) => false
    case (NegInf, _) => true
    case (_, PosInf) => true
    case (PosInf, _) => false
    case (_, NegInf) => false
    case (Finite(x), Finite(y)) => x <= y
  }

  /** `a < b` on numbers, with the same NaN rule. */
  predicate NumLt(a: Number, b: Number) {
    NumLe(a, b) && !NumStrictEq(a, b)
  }

  /** Truncation toward zero, the rounding that JavaScript's `%` uses. */
  function Trunc(y: real): (t: int)
    ensures t as real == y <==> y.Floor as real == y
    ensures y >= 0.0 ==> 0.0 <= t as real <= y
    ensures y <= 0.0 ==> y <= t as real <= 0.0
  {
    if y >= 0.0 then y.Floor
    else
      var f := (-y).Floor;
      assert f as real <= -y < f as real + 1.0;
      assert y.Floor as real <= y < y.Floor as real + 1.0;
      assert f as real == -y ==> y.Floor == -f;
      assert y.Floor as real == y ==> f == -y.Floor;
      -f
  }

  /** JavaScript's remainder operator `%` on numbers: the result takes the
      sign of the dividend; a zero or NaN divisor, or a NaN or infinite
      dividend, gives NaN; an infinite divisor leaves a finite dividend
      unchanged. */
  function JsRem(a: Number, d: Number): (r: Number)
    ensures a.Finite? && d.Finite? && d.x != 0.0 ==>
      r.Finite? && (r.x == 0.0 <==> (a.x / d.x).Floor as real == a.x / d.x)
    ensures a.Finite? && (d.PosInf? || d.NegInf?) ==> r == a
    ensures d == Finite(0.0) || d.NaN? || !a.Finite? ==> r.NaN?
  {
    match (a, d)
    case (Finite(x), Finite(y)) =>
      if y == 0.0 then NaN else Finite(x - y * (Trunc(x / y) as real))
    case (Finite(x), PosInf) => a
    case (Finite(x), NegInf) => a
    case _ => NaN
  }

  /** `Math.floor` on numbers; the special values map to themselves. */
  function MathFloor(n: Number): (r: Number)
    ensures n.Finite? ==> r.Finite? && r.x <= n.x < r.x + 1.0
    ensures !n.Finite? ==> r == n
  {
    match n
    case Finite(x) => Finite(x.Floor as real)
    case _ => n
  }

  /** The regular-expression class `\s`: the JavaScript WhiteSpace and
      LineTerminator characters. */
  predicate IsWhitespace(c: char) {
    var k := c as int;
    k == 0x09 || k == 0x0A || k == 0x0B || k == 0x0C || k == 0x0D || k == 0x20 ||
    k == 0xA0 || k == 0x1680 || (0x2000 <= k <= 0x200A) || k == 0x2028 ||
    k == 0x2029 || k == 0x202F || k == 0x205F || k == 0x3000 || k == 0xFEFF
  }

  /** The regular-expression class `\w`: ASCII letters, digits and `_`. */
  predicate IsWordChar(c: char) {
    ('a' <= c <= 'z') || ('A' <= c <= 'Z') || ('0' <= c <= '9') || c == '_'
  }

  /** The regular-expression class `[0-9]`. */
  predicate IsDigit(c: char) {
    '0' <= c <= '9'
  }

  /** No character of `s` belongs to `\s`; every character is `\S`. */
  predicate NoWhitespace(s: string) {
    forall i :: 0 <= i < |s| ==> !IsWhitespace(s[i])
  }
}
