/*******************************************************************************
 *  The JavaScript operators the schema language exposes, on primitive values.
 *
 *  Numbers are integers.  An operation whose JavaScript result is not an
 *  integer (a fraction, NaN, an infinity) or that needs a conversion of an
 *  object to a primitive fails with `Unmodelled`.
 *******************************************************************************/

module Operators {
  import opened Outcomes
  import opened Values

  const TWO_32: int := 0x1_0000_0000
  const TWO_31: int := 0x8000_0000

  // ---------------------------------------------------------------------------
  //  ToNumber
  // ---------------------------------------------------------------------------

  /** The numeric reading of a value: an integer, NaN, or a number this model does not represent. */
  datatype Numeric = Int(n: int) | NaN | Beyond

  predicate IsWhiteSpace(c: char) {
    c == ' ' || c == '\t' || c == '\n' || c == '\r' || c == '\U{000B}' || c == '\U{000C}'
    || c == '\U{00A0}' || c == '\U{1680}' || ('\U{2000}' <= c <= '\U{200A}') || c == '\U{2028}'
    || c == '\U{2029}' || c == '\U{202F}' || c == '\U{205F}' || c == '\U{3000}' || c == '\U{FEFF}'
  }

  function TrimStart(s: string): (r: string)
    ensures |r| <= |s| && (r != [] ==> !IsWhiteSpace(r[0]))
  {
    if s != [] && IsWhiteSpace(s[0]) then TrimStart(s[1..]) else s
  }

  function TrimEnd(s: string): (r: string)
    ensures |r| <= |s| && (r != [] ==> !IsWhiteSpace(r[|r| - 1]))
  {
    if s != [] && IsWhiteSpace(s[|s| - 1]) then TrimEnd(s[..|s| - 1]) else s
  }

  function HexDigitValue(c: char): Option<nat> {
    if '0' <= c <= '9' then Some(c as int - '0' as int)
    else if 'a' <= c <= 'f' then Some(c as int - 'a' as int + 10)
    else if 'A' <= c <= 'F' then Some(c as int - 'A' as int + 10)
    else None
  }

  /** The value of `s` as a numeral in `radix`, when every character is a digit of that radix. */
  function RadixValue(s: string, radix: nat): Option<nat>
    requires 2 <= radix <= 16
  {
    if s == [] then Some(0)
    else
      match RadixValue(s[..|s| - 1], radix)
      case None => None
      case Some(high) =>
        match HexDigitValue(s[|s| - 1])
        case None => None
        case Some(d) => if d < radix then Some(high * radix + d) else None
  }

  /** A numeral of the form `[+-]digits`, or `0x…`, `0o…`, `0b…`. */
  function IntegerNumeral(t: string): Option<int> {
    if |t| > 2 && t[0] == '0' && (t[1] == 'x' || t[1] == 'X') then RadixValue(t[2..], 16)
    else if |t| > 2 && t[0] == '0' && (t[1] == 'o' || t[1] == 'O') then RadixValue(t[2..], 8)
    else if |t| > 2 && t[0] == '0' && (t[1] == 'b' || t[1] == 'B') then RadixValue(t[2..], 2)
    else if |t| > 1 && t[0] == '-' && AllDigits(t[1..]) then Some(-(ParseDigits(t[1..]) as int))
    else if |t| > 1 && t[0] == '+' && AllDigits(t[1..]) then Some(ParseDigits(t[1..]))
    else if |t| > 0 && AllDigits(t) then Some(ParseDigits(t))
    else None
  }

  /** The first position of a character of `cs` in `s`. */
  function FirstOf(s: string, cs: set<char>): (r: Option<nat>)
    ensures r.Some? ==> r.value < |s| && s[r.value] in cs && forall j :: 0 <= j < r.value ==> s[j] !in cs
    ensures r.None? ==> forall j :: 0 <= j < |s| ==> s[j] !in cs
  {
    if s == [] then None
    else if s[0] in cs then Some(0)
    else match FirstOf(s[1..], cs)
      case None => None
      case Some(i) => Some(i + 1)
  }

  /** Digits with at most one decimal point, and at least one digit. */
  predicate IsMantissa(m: string) {
    match FirstOf(m, {'.'})
    case None => |m| > 0 && AllDigits(m)
    case Some(i) => |m| > 1 && AllDigits(m[..i]) && AllDigits(m[i + 1..])
  }

  /** An exponent: an optional sign and at least one digit. */
  predicate IsExponent(x: string) {
    if |x| > 0 && (x[0] == '+' || x[0] == '-') then |x| > 1 && AllDigits(x[1..])
    else |x| > 0 && AllDigits(x)
  }

  /** A decimal literal as `Number` reads it: signed `Infinity`, or a mantissa with an optional exponent. */
  predicate IsDecimalLiteral(t: string) {
    var u := if |t| > 0 && (t[0] == '+' || t[0] == '-') then t[1..] else t;
    u == "Infinity"
    || match FirstOf(u, {'e', 'E'})
       case None => IsMantissa(u)
       case Some(i) => IsMantissa(u[..i]) && IsExponent(u[i + 1..])
  }

  /**
   * `Number(s)`.  Surrounding white space is ignored and the empty text reads
   * as 0.  A decimal literal that is not an integer numeral (it has a point or
   * an exponent, or is an infinity) is `Beyond`; any other text is NaN.
   */
  function StringToNumber(s: string): Numeric {
    var t := TrimEnd(TrimStart(s));
    if t == [] then Int(0)
    else match IntegerNumeral(t)
      case Some(n) => Int(n)
      case None => if IsDecimalLiteral(t) then Beyond else NaN
  }

  function ToNumber(v: Value): Numeric {
    match v
    case Undef => NaN
    case Null => Int(0)
    case Bool(b) => Int(if b then 1 else 0)
    case Num(n) => Int(n)
    case Str(s) => StringToNumber(s)
    case _ => Beyond
  }

  /** The integer a numeric operand stands for, or the reason it leaves the model. */
  function IntOperand(v: Value): Result<int> {
    match ToNumber(v)
    case Int(n) => Ok(n)
    case NaN => Fail(Unmodelled("NaN"))
    case Beyond => Fail(Unmodelled("a number that is not an integer"))
  }

  // ---------------------------------------------------------------------------
  //  32-bit conversions
  // ---------------------------------------------------------------------------

  function ToUint32(n: int): (r: int)
    ensures 0 <= r < TWO_32 && (r - n) % TWO_32 == 0
  {
    n % TWO_32
  }

  function ToInt32(n: int): (r: int)
    ensures -TWO_31 <= r < TWO_31 && (r - n) % TWO_32 == 0
  {
    var u := ToUint32(n);
    if u >= TWO_31 then u - TWO_32 else u
  }

  function Pow2(k: nat): (r: nat)
    ensures r >= 1
  {
    if k == 0 then 1 else 2 * Pow2(k - 1)
  }

  lemma {:induction false} Pow2Add(a: nat, b: nat)
    ensures Pow2(a + b) == Pow2(a) * Pow2(b)
    decreases a
  {
    if a > 0 {
      Pow2Add(a - 1, b);
    }
  }

  function BitsOf(n: int): bv32 {
    ToUint32(n) as bv32
  }

  function FromBits(b: bv32): int {
    ToInt32(b as int)
  }

  /** Reading a 32-bit pattern as a signed integer and back gives the same pattern. */
  lemma BitsRoundTrip(b: bv32)
    ensures BitsOf(FromBits(b)) == b
  {
    Int32RoundTrip(b as int);
    BvIntRoundTrip(b);
  }

  lemma Int32RoundTrip(u: int)
    requires 0 <= u < TWO_32
    ensures ToUint32(ToInt32(u)) == u
  {
    if u >= TWO_31 {
      assert ToInt32(u) == u - TWO_32;
      assert (u - TWO_32) % TWO_32 == u;
    }
  }

  lemma BvIntRoundTrip(b: bv32)
    ensures (b as int) as bv32 == b
  {
  }

  /** ECMAScript's integer quotient rounded toward zero, the partner of `%`. */
  function TruncQuot(a: int, b: int): int
    requires b != 0
  {
    var q := (if a < 0 then -a else a) / (if b < 0 then -b else b);
    if (a < 0) == (b < 0) then q else -q
  }

  /** JavaScript's `%`: the remainder takes the sign of the dividend. */
  function TruncRem(a: int, b: int): (r: int)
    requires b != 0
    ensures a >= 0 ==> 0 <= r < if b > 0 then b else -b
    ensures a < 0 ==> 0 >= r > if b > 0 then -b else b
  {
    var m := if a < 0 then -a else a;
    var d := if b < 0 then -b else b;
    if a < 0 then -(m % d) else m % d
  }

  // ---------------------------------------------------------------------------
  //  Equality
  // ---------------------------------------------------------------------------

  /** `===`: same kind and same content; objects by address. */
  predicate StrictEquals(a: Value, b: Value) {
    a == b
  }

  /** `==` on the pairs the model can decide. */
  function LooseEquals(a: Value, b: Value): Result<bool> {
    if (a.Undef? || a.Null?) && (b.Undef? || b.Null?) then Ok(true)
    else if a.Undef? || a.Null? || b.Undef? || b.Null? then Ok(false)
    else if IsPrimitive(a) != IsPrimitive(b) then Fail(Unmodelled("== between an object and a primitive"))
    else if !IsPrimitive(a) then Ok(a == b)
    else if a.Str? && b.Str? then Ok(a == b)
    else
      match ToNumber(a)
      case NaN => Ok(false)
      case Beyond => Fail(Unmodelled("a number that is not an integer"))
      case Int(x) =>
        match ToNumber(b)
        case NaN => Ok(false)
        case Beyond => Fail(Unmodelled("a number that is not an integer"))
        case Int(y) => Ok(x == y)
  }

  // ---------------------------------------------------------------------------
  //  Relational comparison
  // ---------------------------------------------------------------------------

  predicate StringLess(s: string, t: string) {
    if s == [] then t != []
    else if t == [] then false
    else if s[0] != t[0] then s[0] < t[0]
    else StringLess(s[1..], t[1..])
  }

  /** `a < b`, or undefined when either side is NaN (every relational operator then yields false). */
  function Less(a: Value, b: Value): Result<Option<bool>> {
    if !IsPrimitive(a) || !IsPrimitive(b) then Fail(Unmodelled("a comparison involving an object"))
    else if a.Str? && b.Str? then Ok(Some(StringLess(a.s, b.s)))
    else
      match ToNumber(a)
      case NaN => Ok(None)
      case Beyond => Fail(Unmodelled("a number that is not an integer"))
      case Int(x) =>
        match ToNumber(b)
        case NaN => Ok(None)
        case Beyond => Fail(Unmodelled("a number that is not an integer"))
        case Int(y) => Ok(Some(x < y))
  }

  // ---------------------------------------------------------------------------
  //  The operators
  // ---------------------------------------------------------------------------

  /** The binary operators both the lowering compiler and the checker accept. */
  predicate IsBinaryOperator(op: string) {
    op in {"|", "&", "*", "/", "%", "<<", ">>", ">>>", "+", "-", "<=", ">=", "<", ">",
           "===", "!==", "==", "!=", "^", "&&", "||"}
  }

  function Arith(op: string, a: Value, b: Value): (r: Result<Value>)
    ensures r.Ok? ==> r.value.Num?
  {
    var x :- IntOperand(a);
    var y :- IntOperand(b);
    if op == "+" then Ok(Num(x + y))
    else if op == "-" then Ok(Num(x - y))
    else if op == "*" then Ok(Num(x * y))
    else if op == "/" then
      if y == 0 then Fail(Unmodelled("a division by zero"))
      else if x % y != 0 then Fail(Unmodelled("a fractional quotient"))
      else Ok(Num(x / y))
    else if op == "%" then
      if y == 0 then Fail(Unmodelled("NaN")) else Ok(Num(TruncRem(x, y)))
    else if op in SHIFT_OPERATORS then Ok(Num(Shift(op, x, y)))
    else if op in BITWISE_OPERATORS then Ok(Num(Bitwise(op, x, y)))
    else Fail(Unmodelled("operator " + op))
  }

  const SHIFT_OPERATORS: set<string> := {"<<", ">>", ">>>"}
  const BITWISE_OPERATORS: set<string> := {"&", "|", "^"}

  /** `x << y`, `x >> y` and `x >>> y`: the shift count is the right operand modulo 32. */
  function Shift(op: string, x: int, y: int): int
    requires op in SHIFT_OPERATORS
  {
    var p := Pow2(ToUint32(y) % 32);
    if op == "<<" then ToInt32(ToInt32(x) * p)
    else if op == ">>" then ToInt32(x) / p
    else ToUint32(x) / p
  }

  /** `x & y`, `x | y` and `x ^ y` on the 32-bit two's complement patterns. */
  function Bitwise(op: string, x: int, y: int): int
    requires op in BITWISE_OPERATORS
  {
    var a, b := BitsOf(x), BitsOf(y);
    FromBits(if op == "&" then a & b else if op == "|" then a | b else a ^ b)
  }

  /** The equality and relational operators: their result is always a boolean. */
  const COMPARISON_OPERATORS: set<string> := {"===", "!==", "==", "!=", "<", ">", "<=", ">="}

  /** `a op b` for a comparison operator. */
  function Comparison(op: string, a: Value, b: Value): (r: Result<Value>)
    requires op in COMPARISON_OPERATORS
    ensures r.Ok? ==> r.value.Bool?
  {
    if op == "===" then Ok(Bool(StrictEquals(a, b)))
    else if op == "!==" then Ok(Bool(!StrictEquals(a, b)))
    else if op == "==" then var e :- LooseEquals(a, b); Ok(Bool(e))
    else if op == "!=" then var e :- LooseEquals(a, b); Ok(Bool(!e))
    else if op == "<" then var l :- Less(a, b); Ok(Bool(l == Some(true)))
    else if op == ">" then var l :- Less(b, a); Ok(Bool(l == Some(true)))
    else if op == "<=" then var l :- Less(b, a); Ok(Bool(l == Some(false)))
    else var l :- Less(a, b); Ok(Bool(l == Some(false)))
  }

  /** `a op b` on two already evaluated operands (`&&` and `||` return one of them). */
  function Binary(op: string, a: Value, b: Value): (r: Result<Value>)
    ensures IsPrimitive(a) && IsPrimitive(b) && r.Ok? ==> IsPrimitive(r.value)
  {
    if op == "&&" then Ok(if Truthy(a) then b else a)
    else if op == "||" then Ok(if Truthy(a) then a else b)
    else if op in COMPARISON_OPERATORS then Comparison(op, a, b)
    else if op == "+" && IsPrimitive(a) && IsPrimitive(b) && (a.Str? || b.Str?) then
      Ok(Str(ToText(a).value + ToText(b).value))
    else if !IsPrimitive(a) || !IsPrimitive(b) then Fail(Unmodelled("an operator applied to an object"))
    else Arith(op, a, b)
  }

  /** `op a` for the four unary operators; the handlers return undefined for any other operator. */
  function Unary(op: string, a: Value): (r: Result<Value>)
    ensures r.Ok? ==> IsPrimitive(r.value)
  {
    if op == "!" then Ok(Bool(!Truthy(a)))
    else if op == "+" || op == "-" || op == "~" then
      if !IsPrimitive(a) then Fail(Unmodelled("an operator applied to an object"))
      else
        var x :- IntOperand(a);
        Ok(Num(if op == "+" then x else if op == "-" then -x else -ToInt32(x) - 1))
    else Ok(Undef)
  }

  // ---------------------------------------------------------------------------
  //  Properties of the operators
  // ---------------------------------------------------------------------------

  /**
   * `+` with a string operand concatenates the texts of both operands; a
   * number is written as `String` writes it, on either side.
   */
  lemma PlusConcatenates(s: string, t: string, n: int)
    ensures Binary("+", Str(s), Str(t)) == Ok(Str(s + t))
    ensures Binary("+", Str(s), Num(n)) == Ok(Str(s + NumberText(n)))
    ensures Binary("+", Num(n), Str(s)) == Ok(Str(NumberText(n) + s))
  {
  }

  /** The relational operators are mutually consistent on integers. */
  lemma RelationalOnIntegers(x: int, y: int)
    ensures Binary("<", Num(x), Num(y)) == Ok(Bool(x < y))
    ensures Binary(">", Num(x), Num(y)) == Ok(Bool(x > y))
    ensures Binary("<=", Num(x), Num(y)) == Ok(Bool(x <= y))
    ensures Binary(">=", Num(x), Num(y)) == Ok(Bool(x >= y))
  {
  }

  /** `==` equates null with undefined and nothing else with either. */
  lemma LooseNullish(a: Value)
    ensures LooseEquals(Null, a) == Ok(a.Null? || a.Undef?)
    ensures LooseEquals(a, Undef) == Ok(a.Null? || a.Undef?)
  {
  }

  /** `+`, `-` and `*` on integers are the integer operations. */
  lemma ArithmeticOnIntegers(x: int, y: int)
    ensures Binary("+", Num(x), Num(y)) == Ok(Num(x + y))
    ensures Binary("-", Num(x), Num(y)) == Ok(Num(x - y))
    ensures Binary("*", Num(x), Num(y)) == Ok(Num(x * y))
  {
  }

  /** `/` of a multiple of a non-zero divisor is the exact quotient; a fraction or a zero divisor leaves the model. */
  lemma DivisionOnIntegers(x: int, y: int, q: int)
    ensures y != 0 && x == q * y ==> Binary("/", Num(x), Num(y)) == Ok(Num(q))
    ensures y == 0 ==> Binary("/", Num(x), Num(y)).Fail?
    ensures y != 0 && Binary("/", Num(x), Num(y)).Ok? ==> Binary("/", Num(x), Num(y)).value.n * y == x
  {
    if y != 0 {
      var r := Binary("/", Num(x), Num(y));
      if x == q * y {
        assert x % y == 0 && x / y == q by {
          DivisionOfMultiple(q, y);
        }
      }
      if r.Ok? {
        assert x % y == 0;
        assert r.value.n == x / y;
      }
    }
  }

  lemma DivisionOfMultiple(q: int, y: int)
    requires y != 0
    ensures (q * y) % y == 0 && (q * y) / y == q
  {
    var x := q * y;
    var d, m := x / y, x % y;
    assert x == d * y + m && 0 <= m < (if y < 0 then -y else y);
    assert (q - d) * y == m;
    if q - d != 0 {
      assert ((q - d) * y) * (q - d) * y >= y * y by {
        SquareAtLeast(q - d, y);
      }
    }
  }

  lemma SquareAtLeast(k: int, y: int)
    requires k != 0
    ensures (k * y) * k * y >= y * y
  {
    assert (k * y) * k * y == (k * k) * (y * y);
    assert k * k >= 1;
  }

  /** `%` is the remainder of the quotient rounded toward zero: it takes the sign of the dividend. */
  lemma RemainderOnIntegers(x: int, y: int)
    requires y != 0
    ensures var r := Binary("%", Num(x), Num(y));
            && r.Ok? && r.value.Num?
            && x == y * TruncQuot(x, y) + r.value.n
            && (x >= 0 ==> 0 <= r.value.n) && (x < 0 ==> r.value.n <= 0)
            && (if r.value.n < 0 then -r.value.n else r.value.n) < (if y < 0 then -y else y)
  {
    var m := if x < 0 then -x else x;
    var d := if y < 0 then -y else y;
    assert Binary("%", Num(x), Num(y)) == Ok(Num(TruncRem(x, y))) by {
      NumbersReachArith("%", x, y);
    }
    assert m == d * (m / d) + m % d;
  }

  /** On two numbers, an operator other than `&&`, `||` and the comparisons is computed by `Arith`. */
  lemma NumbersReachArith(op: string, x: int, y: int)
    requires op != "&&" && op != "||" && op !in COMPARISON_OPERATORS
    ensures Binary(op, Num(x), Num(y)) == Arith(op, Num(x), Num(y))
  {
  }

  /** `>>` shifts the signed 32-bit reading right by the right operand modulo 32, rounding down. */
  lemma SignedShiftRight(x: int, y: int)
    ensures var p := Pow2(ToUint32(y) % 32);
            var r := Binary(">>", Num(x), Num(y));
            r.Ok? && r.value.Num? && r.value.n * p <= ToInt32(x) < r.value.n * p + p
  {
    NumbersReachArith(">>", x, y);
    FloorDivision(ToInt32(x), Pow2(ToUint32(y) % 32));
  }

  /** `>>>` shifts the unsigned 32-bit reading right, so the result is never negative. */
  lemma UnsignedShiftRight(x: int, y: int)
    ensures var p := Pow2(ToUint32(y) % 32);
            var r := Binary(">>>", Num(x), Num(y));
            r.Ok? && r.value.Num? && 0 <= r.value.n && r.value.n * p <= ToUint32(x) < r.value.n * p + p
  {
    NumbersReachArith(">>>", x, y);
    FloorDivision(ToUint32(x), Pow2(ToUint32(y) % 32));
  }

  /** `<<` multiplies the signed 32-bit reading by a power of two and wraps around into the signed range. */
  lemma ShiftLeft(x: int, y: int)
    ensures var p := Pow2(ToUint32(y) % 32);
            var r := Binary("<<", Num(x), Num(y));
            r.Ok? && r.value.Num? && -TWO_31 <= r.value.n < TWO_31 && (r.value.n - ToInt32(x) * p) % TWO_32 == 0
  {
    NumbersReachArith("<<", x, y);
  }

  lemma FloorDivision(a: int, p: int)
    requires p > 0
    ensures (a / p) * p <= a < (a / p) * p + p
    ensures a >= 0 ==> a / p >= 0
  {
  }

  /** On two numbers, a bitwise operator is computed by `Bitwise`. */
  lemma NumbersReachBitwise(op: string, x: int, y: int)
    requires op in BITWISE_OPERATORS
    ensures Binary(op, Num(x), Num(y)) == Ok(Num(Bitwise(op, x, y)))
  {
    NumbersReachArith(op, x, y);
    assert op !in SHIFT_OPERATORS && op != "+" && op != "-" && op != "*" && op != "/" && op != "%";
    assert IntOperand(Num(x)) == Ok(x) && IntOperand(Num(y)) == Ok(y);
  }

  /** The result of a bitwise operator is a signed 32-bit integer whose pattern is the operation on the operands' patterns. */
  lemma BitwiseReadsBack(op: string, x: int, y: int)
    requires op in BITWISE_OPERATORS
    ensures var n := Bitwise(op, x, y);
            && -TWO_31 <= n < TWO_31
            && BitsOf(n) == (if op == "&" then BitsOf(x) & BitsOf(y) else if op == "|" then BitsOf(x) | BitsOf(y) else BitsOf(x) ^ BitsOf(y))
  {
    var b := if op == "&" then BitsOf(x) & BitsOf(y) else if op == "|" then BitsOf(x) | BitsOf(y) else BitsOf(x) ^ BitsOf(y);
    assert Bitwise(op, x, y) == FromBits(b);
    BitsRoundTrip(b);
  }

  /** `&` is the 32-bit and of the two's complement patterns, read back as signed. */
  lemma BitwiseAnd(x: int, y: int)
    ensures var r := Binary("&", Num(x), Num(y));
            r.Ok? && r.value.Num? && -TWO_31 <= r.value.n < TWO_31 && BitsOf(r.value.n) == BitsOf(x) & BitsOf(y)
  {
    NumbersReachBitwise("&", x, y);
    BitwiseReadsBack("&", x, y);
  }

  /** `|` is the 32-bit or of the two's complement patterns, read back as signed. */
  lemma BitwiseOr(x: int, y: int)
    ensures var r := Binary("|", Num(x), Num(y));
            r.Ok? && r.value.Num? && -TWO_31 <= r.value.n < TWO_31 && BitsOf(r.value.n) == BitsOf(x) | BitsOf(y)
  {
    NumbersReachBitwise("|", x, y);
    BitwiseReadsBack("|", x, y);
  }

  /** `^` is the 32-bit exclusive or of the two's complement patterns, read back as signed. */
  lemma BitwiseXor(x: int, y: int)
    ensures var r := Binary("^", Num(x), Num(y));
            r.Ok? && r.value.Num? && -TWO_31 <= r.value.n < TWO_31 && BitsOf(r.value.n) == BitsOf(x) ^ BitsOf(y)
  {
    NumbersReachBitwise("^", x, y);
    BitwiseReadsBack("^", x, y);
  }

  /**
   * `===` compares kind and content with no conversion, so a number never
   * equals a string; `!==` is its negation.
   */
  lemma StrictEqualityOnValues(a: Value, b: Value)
    ensures Binary("===", a, b) == Ok(Bool(a == b))
    ensures Binary("!==", a, b) == Ok(Bool(a != b))
    ensures a.Num? && b.Str? ==> Binary("===", a, b) == Ok(Bool(false))
  {
  }

  /** `==` is reflexive on primitives: whatever `===` equates, `==` equates too. */
  lemma StrictImpliesLoose(a: Value, b: Value)
    requires IsPrimitive(a) && Binary("===", a, b) == Ok(Bool(true))
    ensures Binary("==", a, b) == Ok(Bool(true))
  {
  }

  /**
   * Unary `-` negates, unary `+` converts to a number, and `~` is the
   * complement of the signed 32-bit reading, so applying it twice gives that
   * reading back.
   */
  lemma UnaryOnIntegers(x: int, b: bool)
    ensures Unary("-", Num(x)) == Ok(Num(-x))
    ensures Unary("+", Num(x)) == Ok(Num(x))
    ensures Unary("+", Bool(b)) == Ok(Num(if b then 1 else 0))
    ensures Unary("+", Null) == Ok(Num(0))
    ensures Unary("~", Num(x)) == Ok(Num(-ToInt32(x) - 1))
    ensures Unary("~", Unary("~", Num(x)).value) == Ok(Num(ToInt32(x)))
  {
    var v := ToInt32(x);
    assert ToInt32(-v - 1) == -v - 1;
  }
}
