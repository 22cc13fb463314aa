/*******************************************************************************
 *  JavaScript values as the validate and mock engines see them.
 *
 *  Primitives are carried by value; arrays and plain objects live in a heap
 *  and are reached through addresses, so that shared and cyclic data (and the
 *  identity-based visited sets of the engines) can be expressed.  Numbers are
 *  integers: floating point is not part of this model.
 *******************************************************************************/

module Values {
  import opened Outcomes

  type Addr = nat

  /** A regular expression object: its source text and its flags. */
  datatype Regex = Regex(source: string, flags: string)

  datatype Value =
    | Undef
    | Null
    | Bool(b: bool)
    | Num(n: int)
    | Str(s: string)
    | Re(re: Regex)
    | Ptr(addr: Addr)

  /** One own property of a plain object; fields keep insertion order. */
  datatype Field = Field(key: string, val: Value)

  datatype Cell = Arr(items: seq<Value>) | Obj(fields: seq<Field>)

  type Heap = map<Addr, Cell>

  predicate IsPrimitive(v: Value) {
    !v.Re? && !v.Ptr?
  }

  /** `_.isObjectLike`: non-null values of type "object". */
  predicate IsObjectLike(v: Value) {
    v.Re? || v.Ptr?
  }

  predicate IsArray(h: Heap, v: Value) {
    v.Ptr? && v.addr in h && h[v.addr].Arr?
  }

  predicate IsPlainObject(h: Heap, v: Value) {
    v.Ptr? && v.addr in h && h[v.addr].Obj?
  }

  /** JavaScript truthiness. */
  predicate Truthy(v: Value) {
    match v
    case Undef => false
    case Null => false
    case Bool(b) => b
    case Num(n) => n != 0
    case Str(s) => s != ""
    case _ => true
  }

  // ---------------------------------------------------------------------------
  //  Decimal text of integers, and canonical array indices
  // ---------------------------------------------------------------------------

  predicate IsDigit(c: char) {
    '0' <= c <= '9'
  }

  predicate AllDigits(s: string) {
    forall i :: 0 <= i < |s| ==> IsDigit(s[i])
  }

  function DigitChar(d: nat): (c: char)
    requires d < 10
    ensures IsDigit(c) && c as int - '0' as int == d
  {
    (d + '0' as int) as char
  }

  function NatToString(n: nat): (s: string)
    ensures |s| > 0 && AllDigits(s)
    ensures s[0] != '0' || n == 0
    decreases n
  {
    if n < 10 then [DigitChar(n)] else NatToString(n / 10) + [DigitChar(n % 10)]
  }

  /** The plain decimal digits of `n`, signed: `String(n)` while `n` is below 10^21 in size. */
  function Decimal(n: int): string {
    if n < 0 then "-" + NatToString(-n) else NatToString(n)
  }

  /** The least size of integer that JavaScript numbers and Big.js print in exponent notation. */
  const EXPONENT_FROM: int := 1_000_000_000_000_000_000_000

  function Pow10(k: nat): (r: nat)
    ensures r >= 1
  {
    if k == 0 then 1 else 10 * Pow10(k - 1)
  }

  /** A digit string without its trailing zeros; the first digit is always kept. */
  function TrimZeros(s: string): (r: string)
    requires |s| > 0
    ensures 0 < |r| <= |s| && r == s[..|r|]
    ensures |r| == 1 || r[|r| - 1] != '0'
    ensures forall k :: |r| <= k < |s| ==> s[k] == '0'
  {
    if |s| > 1 && s[|s| - 1] == '0' then TrimZeros(s[..|s| - 1]) else s
  }

  /**
   * `String(n)` for an integer `n`, as both JavaScript numbers and Big.js
   * print it: the decimal digits below 10^21 in size, and from there on the
   * significant digits with a point after the first, `e+` and the exponent.
   */
  function NumberText(n: int): string {
    var m := if n < 0 then -n else n;
    if m < EXPONENT_FROM then Decimal(n)
    else
      var ds := NatToString(m);
      var c := TrimZeros(ds);
      (if n < 0 then "-" else "") + [c[0]] + (if |c| > 1 then "." + c[1..] else "") + "e+" + NatToString(|ds| - 1)
  }

  /** Dropping trailing zeros divides the value of a digit string by the matching power of ten. */
  lemma {:induction false} TrimZerosValue(s: string)
    requires |s| > 0 && AllDigits(s)
    ensures AllDigits(TrimZeros(s))
    ensures ParseDigits(s) == ParseDigits(TrimZeros(s)) * Pow10(|s| - |TrimZeros(s)|)
    decreases |s|
  {
    if |s| > 1 && s[|s| - 1] == '0' {
      var p := s[..|s| - 1];
      TrimZerosValue(p);
      var r := TrimZeros(p);
      var a, b := ParseDigits(r), Pow10(|p| - |r|);
      assert ParseDigits(s) == ParseDigits(p) * 10;
      assert Pow10(|s| - |r|) == 10 * b;
      MulTen(a, b);
    }
  }

  lemma MulTen(a: nat, b: nat)
    ensures a * (10 * b) == (a * b) * 10
  {
  }

  /** The exponent form: the first significant digit, the others after a point, `e+` and the exponent. */
  lemma ExponentTextShape(n: int)
    requires n >= EXPONENT_FROM || n <= -EXPONENT_FROM
    ensures var m := if n < 0 then -n else n;
            var ds := NatToString(m);
            var c := TrimZeros(ds);
            && NumberText(n) == (if n < 0 then "-" else "") + [c[0]] + (if |c| > 1 then "." + c[1..] else "") + "e+" + NatToString(|ds| - 1)
            && c[0] != '0' && (|c| == 1 || c[|c| - 1] != '0')
  {
    var m := if n < 0 then -n else n;
    var ds := NatToString(m);
    assert m >= EXPONENT_FROM;
    assert TrimZeros(ds)[0] == ds[0] != '0';
  }

  /**
   * The exponent form denotes the number: its significant digits, shifted
   * left by the exponent less the digits after the point, give back the size
   * of `n`, and the last significant digit is not 0.
   */
  lemma ExponentTextValue(n: int)
    requires n >= EXPONENT_FROM || n <= -EXPONENT_FROM
    ensures var m := if n < 0 then -n else n;
            var ds := NatToString(m);
            var c := TrimZeros(ds);
            var e := |ds| - 1;
            && NumberText(n) == (if n < 0 then "-" else "") + [c[0]] + (if |c| > 1 then "." + c[1..] else "") + "e+" + NatToString(e)
            && AllDigits(c) && c[0] != '0'
            && (|c| == 1 || c[|c| - 1] != '0')
            && ParseDigits(c) * Pow10(e - (|c| - 1)) == m
  {
    var m := if n < 0 then -n else n;
    var ds := NatToString(m);
    var c := TrimZeros(ds);
    ExponentTextShape(n);
    var e := |ds| - 1;
    assert AllDigits(c) && ParseDigits(ds) == ParseDigits(c) * Pow10(|ds| - |c|) by {
      TrimZerosValue(ds);
    }
    assert ParseDigits(ds) == m by {
      ParseNatToString(m);
    }
    assert e - (|c| - 1) == |ds| - |c|;
  }

  lemma {:induction false} Pow10Add(a: nat, b: nat)
    ensures Pow10(a + b) == Pow10(a) * Pow10(b)
  {
    if a > 0 {
      Pow10Add(a - 1, b);
    }
  }

  /** Appending a 0 to the text of a positive number multiplies it by ten. */
  lemma NatToStringTimesTen(k: nat)
    requires k >= 1
    ensures NatToString(k * 10) == NatToString(k) + ['0']
  {
    assert (k * 10) / 10 == k && (k * 10) % 10 == 0;
  }

  /** A digit followed by `j` zeros is the text of that digit times 10^j. */
  lemma {:induction false} DigitTimesPowerText(d: nat, j: nat)
    requires 1 <= d <= 9
    ensures NatToString(d * Pow10(j)) == [DigitChar(d)] + seq(j, _ => '0')
  {
    if j > 0 {
      var k := d * Pow10(j - 1);
      assert d * Pow10(j) == k * 10 && k >= 1 by {
        assert Pow10(j) == 10 * Pow10(j - 1);
        AtLeastOnce(d, Pow10(j - 1));
      }
      DigitTimesPowerText(d, j - 1);
      NatToStringTimesTen(k);
      assert seq(j, _ => '0') == seq(j - 1, _ => '0') + ['0'];
    }
  }

  lemma ExponentFromIsPow10()
    ensures Pow10(21) == EXPONENT_FROM
  {
    assert Pow10(7) == 10_000_000;
    Pow10Add(7, 7);
    Pow10Add(14, 7);
  }

  /** The digits of a digit times 10^j, from 10^21 on: the digit is the only significant one. */
  lemma DigitPowerDigits(d: nat, j: nat)
    requires 1 <= d <= 9 && j >= 21
    ensures var m := d * Pow10(j);
            && m >= EXPONENT_FROM
            && |NatToString(m)| == j + 1
            && TrimZeros(NatToString(m)) == [DigitChar(d)]
  {
    var m := d * Pow10(j);
    var q := Pow10(j - 21);
    assert Pow10(j) == EXPONENT_FROM * q by {
      ExponentFromIsPow10();
      Pow10Add(21, j - 21);
    }
    assert m >= EXPONENT_FROM by {
      AtLeastOnce(d, Pow10(j));
    }
    var ds := NatToString(m);
    var c := TrimZeros(ds);
    DigitTimesPowerText(d, j);
  }

  /** A digit times 10^j, from 10^21 on, is printed as that digit, `e+` and `j`. */
  lemma DigitPowerText(d: nat, j: nat)
    requires 1 <= d <= 9 && j >= 21
    ensures NumberText(d * Pow10(j)) == [DigitChar(d)] + "e+" + NatToString(j)
    ensures NumberText(-(d * Pow10(j))) == "-" + [DigitChar(d)] + "e+" + NatToString(j)
  {
    DigitPowerDigits(d, j);
    SingleDigitText(d * Pow10(j), d, j);
  }

  /** A number of at least 10^21 whose only significant digit is `d` prints as `d`, `e+` and its exponent. */
  lemma SingleDigitText(m: nat, d: nat, j: nat)
    requires 1 <= d <= 9 && m >= EXPONENT_FROM
    requires |NatToString(m)| == j + 1 && TrimZeros(NatToString(m)) == [DigitChar(d)]
    ensures NumberText(m) == [DigitChar(d)] + "e+" + NatToString(j)
    ensures NumberText(-(m as int)) == "-" + [DigitChar(d)] + "e+" + NatToString(j)
  {
    assert NumberText(m) == [DigitChar(d)] + "e+" + NatToString(j) by {
      ExponentTextShape(m);
      assert "" + [DigitChar(d)] + "" == [DigitChar(d)];
    }
    var n: int := -(m as int);
    assert NumberText(n) == "-" + [DigitChar(d)] + "e+" + NatToString(j) by {
      assert n < 0 && -n == m;
      ExponentTextShape(n);
    }
  }

  lemma AtLeastOnce(d: nat, p: nat)
    requires d >= 1
    ensures d * p >= p
  {
    assert d * p == p + (d - 1) * p;
  }

  function ParseDigits(s: string): nat
    requires AllDigits(s)
  {
    if s == [] then 0 else ParseDigits(s[..|s| - 1]) * 10 + (s[|s| - 1] as int - '0' as int)
  }

  /** A canonical array index: decimal digits without a leading zero. */
  predicate IsCanonicalIndex(k: string) {
    |k| > 0 && AllDigits(k) && (k[0] != '0' || |k| == 1)
  }

  function IndexOf(k: string): (r: Option<nat>)
    ensures r.Some? <==> IsCanonicalIndex(k)
  {
    if IsCanonicalIndex(k) then Some(ParseDigits(k)) else None
  }

  lemma {:induction false} ParseNatToString(n: nat)
    ensures ParseDigits(NatToString(n)) == n
    decreases n
  {
    if n >= 10 {
      var s := NatToString(n / 10);
      ParseNatToString(n / 10);
      assert (s + [DigitChar(n % 10)])[..|s|] == s;
    }
  }

  /** The index text written for position `i` reads back as `i`. */
  lemma IndexOfNatToString(i: nat)
    ensures IndexOf(NatToString(i)) == Some(i)
  {
    ParseNatToString(i);
  }

  /** `String(v)` for the values whose text the model knows. */
  function ToText(v: Value): Option<string> {
    match v
    case Undef => Some("undefined")
    case Null => Some("null")
    case Bool(b) => Some(if b then "true" else "false")
    case Num(n) => Some(NumberText(n))
    case Str(s) => Some(s)
    case Re(re) => Some("/" + re.source + "/" + re.flags)
    case Ptr(_) => None
  }

  // ---------------------------------------------------------------------------
  //  Property access
  // ---------------------------------------------------------------------------

  /** The value of the first field named `k`, or undefined. */
  function Lookup(fields: seq<Field>, k: string): Value {
    if fields == [] then Undef
    else if fields[0].key == k then fields[0].val
    else Lookup(fields[1..], k)
  }

  predicate HasField(fields: seq<Field>, k: string) {
    exists i :: 0 <= i < |fields| && fields[i].key == k
  }

  function FieldKeys(fields: seq<Field>): (ks: seq<string>)
    ensures |ks| == |fields|
    ensures forall i :: 0 <= i < |fields| ==> ks[i] == fields[i].key
  {
    if fields == [] then [] else [fields[0].key] + FieldKeys(fields[1..])
  }

  function IndexKeys(n: nat): (ks: seq<string>)
    ensures |ks| == n
    ensures forall i :: 0 <= i < n ==> ks[i] == NatToString(i)
  {
    if n == 0 then [] else IndexKeys(n - 1) + [NatToString(n - 1)]
  }

  /** The enumerable own keys of a value, in `for…in` order. */
  function Keys(h: Heap, v: Value): seq<string> {
    if v.Ptr? && v.addr in h then
      match h[v.addr]
      case Arr(items) => IndexKeys(|items|)
      case Obj(fields) => FieldKeys(fields)
    else []
  }

  /** `v[k]` for a value that is neither null nor undefined. */
  function Get(h: Heap, v: Value, k: string): Value {
    match v
    case Ptr(a) =>
      if a !in h then Undef
      else (
        match h[a]
        case Obj(fields) => Lookup(fields, k)
        case Arr(items) =>
          if k == "length" then Num(|items|)
          else match IndexOf(k)
            case Some(i) => if i < |items| then items[i] else Undef
            case None => Undef)
    case Str(s) =>
      if k == "length" then Num(|s|)
      else (match IndexOf(k)
        case Some(i) => if i < |s| then Str([s[i]]) else Undef
        case None => Undef)
    case _ => Undef
  }

  // ---------------------------------------------------------------------------
  //  Property update
  // ---------------------------------------------------------------------------

  /** Past a first field of another name, a field list has `k` exactly when its tail has. */
  lemma HasFieldTail(fields: seq<Field>, k: string)
    requires fields != [] && fields[0].key != k
    ensures HasField(fields, k) <==> HasField(fields[1..], k)
  {
    if HasField(fields, k) {
      var i :| 0 <= i < |fields| && fields[i].key == k;
      assert fields[1..][i - 1].key == k;
    }
    if HasField(fields[1..], k) {
      var i :| 0 <= i < |fields[1..]| && fields[1..][i].key == k;
      assert fields[i + 1].key == k;
    }
  }

  /** Assignment `o[k] = v` on a field list: the first field named `k` is replaced, else one is appended. */
  function Put(fields: seq<Field>, k: string, v: Value): (r: seq<Field>)
    ensures Lookup(r, k) == v
    ensures forall k' :: k' != k ==> Lookup(r, k') == Lookup(fields, k')
    ensures HasField(fields, k) ==> |r| == |fields|
    ensures !HasField(fields, k) ==> r == fields + [Field(k, v)]
  {
    if fields == [] then [Field(k, v)]
    else if fields[0].key == k then [Field(k, v)] + fields[1..]
    else
      var rest := Put(fields[1..], k, v);
      HasFieldTail(fields, k);
      [fields[0]] + rest
  }

  /** `o[k] = v` on a heap cell; `None` when the write leaves the model (a non-index property of an array). */
  function SetKey(c: Cell, k: string, v: Value): (r: Option<Cell>)
    ensures c.Obj? ==> r.Some? && r.value.Obj? && Lookup(r.value.fields, k) == v
    ensures c.Arr? && IndexOf(k).Some? && IndexOf(k).value < |c.items| ==>
              r == Some(Arr(c.items[IndexOf(k).value := v]))
    ensures c.Arr? && IndexOf(k).Some? && IndexOf(k).value == |c.items| ==>
              r == Some(Arr(c.items + [v]))
  {
    match c
    case Obj(fields) => Some(Obj(Put(fields, k, v)))
    case Arr(items) =>
      match IndexOf(k)
      case None => None
      case Some(i) =>
        if i < |items| then Some(Arr(items[i := v]))
        else if i == |items| then Some(Arr(items + [v]))
        else Some(Arr(items + Holes(i - |items|) + [v]))
  }

  /** Unwritten array slots read as undefined. */
  function Holes(n: nat): (r: seq<Value>)
    ensures |r| == n && forall i :: 0 <= i < n ==> r[i] == Undef
  {
    if n == 0 then [] else Holes(n - 1) + [Undef]
  }
}
