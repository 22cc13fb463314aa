/*******************************************************************************
 *  Helpers of the grammar layer (src/grammar/utils.ts): 32-bit integer keys,
 *  identifiers, the classification of object keys written in a schema,
 *  flattening of operator chains, and the binary operator precedences.
 *******************************************************************************/

module GrammarUtils {
  import opened Outcomes
  import opened Values
  import opened Ast
  import Operators
  import Utils

  const MAX_INTEGER: int := 0x7FFF_FFFF
  const MIN_INTEGER: int := -0x8000_0000

  /**
   * `isInteger`: `+value` is an integer in [-2^31, 2^31 - 1].  A text that
   * reads as a number with a point or an exponent is outside the model.
   */
  function IsInteger32(v: Value): (r: Result<bool>)
    ensures r.Ok? && r.value ==> Operators.ToNumber(v).Int?
    ensures Operators.ToNumber(v).Int? ==>
              r == Ok(MIN_INTEGER <= Operators.ToNumber(v).n <= MAX_INTEGER)
    ensures Operators.ToNumber(v).NaN? ==> r == Ok(false)
  {
    match Operators.ToNumber(v)
    case Int(n) => Ok(MIN_INTEGER <= n <= MAX_INTEGER)
    case NaN => Ok(false)
    case Beyond => Fail(Unmodelled("a number with a fraction or an exponent"))
  }

  lemma DecimalIsTrimmed(n: int)
    ensures Operators.TrimEnd(Operators.TrimStart(Decimal(n))) == Decimal(n) && Decimal(n) != []
  {
    var t := Decimal(n);
    assert !Operators.IsWhiteSpace(t[0]) && !Operators.IsWhiteSpace(t[|t| - 1]);
    assert Operators.TrimStart(t) == t;
  }

  lemma DecimalIsNumeral(n: int)
    ensures Operators.IntegerNumeral(Decimal(n)) == Some(n)
  {
    var d := NatToString(if n < 0 then -n else n);
    ParseNatToString(if n < 0 then -n else n);
    var t := Decimal(n);
    if n < 0 {
      assert t[1..] == d;
    } else {
      assert t == d && AllDigits(t);
    }
  }

  /** The decimal text of an integer reads back as that integer. */
  lemma DecimalReadsBack(n: int)
    ensures Operators.ToNumber(Str(Decimal(n))) == Operators.Int(n)
  {
    DecimalIsTrimmed(n);
    DecimalIsNumeral(n);
  }

  /** An integer key is a 32-bit integer exactly when it lies in [-2^31, 2^31 - 1], written as a number or as text. */
  lemma IsInteger32Exactly(n: int)
    ensures IsInteger32(Num(n)) == Ok(MIN_INTEGER <= n <= MAX_INTEGER)
    ensures IsInteger32(Str(Decimal(n))) == Ok(MIN_INTEGER <= n <= MAX_INTEGER)
  {
    assert Operators.ToNumber(Num(n)) == Operators.Int(n);
    DecimalReadsBack(n);
    ReadsAsInteger(Str(Decimal(n)), n);
  }

  lemma ReadsAsInteger(v: Value, n: int)
    requires Operators.ToNumber(v) == Operators.Int(n)
    ensures IsInteger32(v) == Ok(MIN_INTEGER <= n <= MAX_INTEGER)
  {
  }

  predicate IsLetter(c: char) {
    'a' <= c <= 'z' || 'A' <= c <= 'Z'
  }

  /** `isIdentifier`: a letter or `_`, then letters, digits, `_` and `$`. */
  predicate IsIdentifier(s: string) {
    |s| > 0 && (IsLetter(s[0]) || s[0] == '_')
    && forall i :: 1 <= i < |s| ==> IsLetter(s[i]) || IsDigit(s[i]) || s[i] == '_' || s[i] == '$'
  }

  /** An identifier is a plain object key: it is neither a control key nor a pattern key, and unescapes to itself. */
  lemma IdentifiersArePlainKeys(s: string)
    requires IsIdentifier(s)
    ensures !Utils.IsControlKey(s) && !Utils.IsPatternKey(s) && Utils.UnescapeControlKey(s) == s
  {
  }

  // ---------------------------------------------------------------------------
  //  makeKey
  // ---------------------------------------------------------------------------

  predicate IsLineTerminator(c: char) {
    c == '\n' || c == '\r' || c == '\U{2028}' || c == '\U{2029}'
  }

  /** The position of the last `/` of `s`. */
  function LastSlash(s: string): (r: Option<nat>)
    ensures r.Some? ==> r.value < |s| && s[r.value] == '/' && forall j :: r.value < j < |s| ==> s[j] != '/'
    ensures r.None? ==> forall j :: 0 <= j < |s| ==> s[j] != '/'
  {
    if s == [] then None
    else if s[|s| - 1] == '/' then Some(|s| - 1)
    else LastSlash(s[..|s| - 1])
  }

  /** Zero or more copies of the text `img`. */
  predicate ImgRepeated(s: string)
    decreases |s|
  {
    s == [] || (|s| >= 3 && s[..3] == "img" && ImgRepeated(s[3..]))
  }

  /**
   * The key read as `/body/suffix`: it starts with `/`, the body runs to its
   * last `/` and holds no line terminator.  This is how a greedy `(.*)`
   * between two slashes splits a key whose suffix holds no `/`.
   */
  function SlashSplit(key: string): (r: Option<(string, string)>)
    ensures r.Some? ==> key == "/" + r.value.0 + "/" + r.value.1
    ensures r.Some? ==> forall j :: 0 <= j < |r.value.1| ==> r.value.1[j] != '/'
  {
    if |key| < 2 || key[0] != '/' then None
    else
      match LastSlash(key)
      case None => None
      case Some(p) =>
        if p == 0 then None
        else
          var body := key[1..p];
          if exists j :: 0 <= j < |body| && IsLineTerminator(body[j]) then None
          else
            assert key == "/" + body + "/" + key[p + 1..];
            Some((body, key[p + 1..]))
  }

  /** The match of `^\/(.*)\/(img)*$` against the key: its first group. */
  function SlashKeyAsWritten(key: string): (r: Option<string>)
    ensures r.Some? ==> SlashSplit(key).Some? && r.value == SlashSplit(key).value.0
  {
    match SlashSplit(key)
    case None => None
    case Some((body, suffix)) => if ImgRepeated(suffix) then Some(body) else None
  }

  /** The key as `/body/flags` with every flag one of `i`, `m`, `g`. */
  function SlashKey(key: string): (r: Option<(string, string)>)
    ensures r.Some? ==> key == "/" + r.value.0 + "/" + r.value.1
  {
    match SlashSplit(key)
    case None => None
    case Some((body, flags)) =>
      if forall j :: 0 <= j < |flags| ==> flags[j] in {'i', 'm', 'g'} then Some((body, flags)) else None
  }

  /** Whether `new RegExp(source, flags)` compiles. */
  type Compiles = (string, string) -> bool

  /**
   * `makeKey` as written: a text reading as a 32-bit integer is a number key;
   * a `/…/` key is then compiled with the whole key as the pattern and the
   * body as the flags.
   */
  function MakeKeyAsWritten(key: string, compiles: Compiles): (r: Result<Node>)
    ensures r.Ok? && r.value.RegN? ==> r.value.re.source == key
  {
    var isInt :- IsInteger32(Str(key));
    if isInt then Ok(NumN(Operators.ToNumber(Str(key)).n))
    else
      match SlashKeyAsWritten(key)
      case Some(body) => if compiles(key, body) then Ok(RegN(Regex(key, body))) else Ok(StrN(key))
      case None => Ok(if IsIdentifier(key) then IdentN(key) else StrN(key))
  }

  /**
   * `makeKey`: a number key for a 32-bit integer, a regular expression key for
   * a `/body/flags` key that compiles (a string key when it does not), an
   * identifier key, and otherwise a string key.
   */
  function MakeKey(key: string, compiles: Compiles): (r: Result<Node>)
    ensures r.Ok? && r.value.NumN? ==> IsInteger32(Str(key)) == Ok(true) && Operators.ToNumber(Str(key)) == Operators.Int(r.value.n)
    ensures r.Ok? && r.value.RegN? ==>
              IsInteger32(Str(key)) == Ok(false) && key == "/" + r.value.re.source + "/" + r.value.re.flags
              && compiles(r.value.re.source, r.value.re.flags)
    ensures r.Ok? && r.value.IdentN? ==> IsInteger32(Str(key)) == Ok(false) && SlashKey(key).None? && IsIdentifier(key) && r.value.name == key
    ensures r.Ok? && r.value.StrN? ==> IsInteger32(Str(key)) == Ok(false) && r.value.s == key
    ensures r.Ok? ==> r.value.NumN? || r.value.RegN? || r.value.IdentN? || r.value.StrN?
    ensures IsInteger32(Str(key)).Ok? ==> r.Ok?
  {
    var isInt :- IsInteger32(Str(key));
    if isInt then Ok(NumN(Operators.ToNumber(Str(key)).n))
    else
      match SlashKey(key)
      case Some((body, flags)) => if compiles(body, flags) then Ok(RegN(Regex(body, flags))) else Ok(StrN(key))
      case None => Ok(if IsIdentifier(key) then IdentN(key) else StrN(key))
  }

  /** The string form of a regular expression, `/source/flags`, as an object key spells it. */
  function RegexKey(re: Regex): string {
    "/" + re.source + "/" + re.flags
  }

  /** A regular expression key made by `makeKey` spells, as an object key, the key it was made from. */
  lemma MakeKeyRegexRoundTrip(key: string, compiles: Compiles)
    requires MakeKey(key, compiles).Ok? && MakeKey(key, compiles).value.RegN?
    ensures RegexKey(MakeKey(key, compiles).value.re) == key
  {
  }

  /** `/g/` compiles, as written, to a pattern `/g/` with flag `g` instead of the pattern `g` with no flags. */
  lemma MakeKeySwapsPatternAndFlags()
    ensures MakeKeyAsWritten("/g/", (s, f) => true) == Ok(RegN(Regex("/g/", "g")))
    ensures MakeKey("/g/", (s, f) => true) == Ok(RegN(Regex("g", "")))
  {
    SlashTextIsNaN("/g/");
    assert LastSlash("/g/") == Some(2);
    assert "/g/"[1..2] == "g" && !IsLineTerminator('g');
    assert SlashSplit("/g/") == Some(("g", ""));
  }

  /** A text starting with `/` reads as NaN. */
  lemma SlashTextIsNaN(t: string)
    requires |t| > 0 && t[0] == '/' && !Operators.IsWhiteSpace(t[|t| - 1])
    ensures Operators.ToNumber(Str(t)) == Operators.NaN
  {
    assert Operators.TrimStart(t) == t;
    assert Operators.TrimEnd(t) == t;
    assert !IsDigit(t[0]);
    assert Operators.IntegerNumeral(t) == None;
    var e := Operators.FirstOf(t, {'e', 'E'});
    assert e.Some? ==> e.value > 0 && !Operators.IsMantissa(t[..e.value]) by {
      if e.Some? {
        var m := t[..e.value];
        assert m[0] == '/';
        var dot := Operators.FirstOf(m, {'.'});
        assert dot.Some? ==> dot.value > 0 && !AllDigits(m[..dot.value]) by {
          if dot.Some? { assert m[..dot.value][0] == '/'; }
        }
      }
    }
    var dot := Operators.FirstOf(t, {'.'});
    assert dot.Some? ==> dot.value > 0 && !AllDigits(t[..dot.value]) by {
      if dot.Some? { assert t[..dot.value][0] == '/'; }
    }
  }

  /** `/a/i` is not recognised as written (the flags group only admits repeats of `img`), and becomes a string key. */
  lemma MakeKeyMissesSingleFlags()
    ensures MakeKeyAsWritten("/a/i", (s, f) => true) == Ok(StrN("/a/i"))
    ensures MakeKey("/a/i", (s, f) => true) == Ok(RegN(Regex("a", "i")))
  {
    SlashTextIsNaN("/a/i");
    assert LastSlash("/a/i") == Some(2);
    assert "/a/i"[1..2] == "a" && !IsLineTerminator('a');
    assert SlashSplit("/a/i") == Some(("a", "i"));
    assert !ImgRepeated("i");
    assert !IsIdentifier("/a/i");
  }

  // ---------------------------------------------------------------------------
  //  spreadMember
  // ---------------------------------------------------------------------------

  /** A node that is not itself a link of an `op` chain. */
  predicate IsOperand(n: Node, op: string) {
    !n.NoNode? && !(n.BinaryN? && n.op == op)
  }

  /** `spreadMember(node, op)`: the operands of a chain of `op`, left to right. */
  function SpreadMember(n: Node, op: string): (r: seq<Node>)
    ensures forall i :: 0 <= i < |r| ==> IsOperand(r[i], op)
    ensures n.NoNode? ==> r == []
    ensures IsOperand(n, op) ==> r == [n]
  {
    if n.NoNode? then []
    else if !(n.BinaryN? && n.op == op) then [n]
    else SpreadMember(n.left, op) + SpreadMember(n.right, op)
  }

  /** The left-leaning chain `x0 op x1 op … op xk` a parser builds from operands. */
  function Chain(xs: seq<Node>, op: string): Node
    requires |xs| > 0
  {
    if |xs| == 1 then xs[0] else BinaryN(op, Chain(xs[..|xs| - 1], op), xs[|xs| - 1])
  }

  /** Spreading a chain gives back its operands in order. */
  lemma {:induction false} SpreadChain(xs: seq<Node>, op: string)
    requires |xs| > 0 && forall i :: 0 <= i < |xs| ==> IsOperand(xs[i], op)
    ensures SpreadMember(Chain(xs, op), op) == xs
    decreases |xs|
  {
    if |xs| > 1 {
      SpreadChain(xs[..|xs| - 1], op);
      assert xs == xs[..|xs| - 1] + [xs[|xs| - 1]];
    }
  }

  lemma SpreadJoins(l: Node, r: Node, op: string)
    ensures SpreadMember(BinaryN(op, l, r), op) == SpreadMember(l, op) + SpreadMember(r, op)
  {
  }

  /** The grouping of a chain does not matter: `(a op b) op c` and `a op (b op c)` spread alike. */
  lemma SpreadIgnoresGrouping(a: Node, b: Node, c: Node, op: string)
    ensures SpreadMember(BinaryN(op, BinaryN(op, a, b), c), op) == SpreadMember(BinaryN(op, a, BinaryN(op, b, c)), op)
  {
    SpreadJoins(BinaryN(op, a, b), c, op);
    SpreadJoins(a, b, op);
    SpreadJoins(a, BinaryN(op, b, c), op);
    SpreadJoins(b, c, op);
    ConcatAssociates(SpreadMember(a, op), SpreadMember(b, op), SpreadMember(c, op));
  }

  // ---------------------------------------------------------------------------
  //  binaryOperators
  // ---------------------------------------------------------------------------

  /** The binding strength of each binary operator; larger binds tighter. */
  function Precedence(op: string): (r: Option<nat>)
    ensures r.Some? ==> 5 <= r.value <= 14
  {
    if op == "*" || op == "/" || op == "%" then Some(14)
    else if op == "+" || op == "-" then Some(13)
    else if op == "<<" || op == ">>" || op == ">>>" then Some(12)
    else if op == "<=" || op == ">=" || op == "<" || op == ">" then Some(11)
    else if op == "===" || op == "!==" || op == "==" || op == "!=" then Some(10)
    else if op == "&" then Some(9)
    else if op == "^" then Some(8)
    else if op == "|" then Some(7)
    else if op == "&&" then Some(6)
    else if op == "||" then Some(5)
    else None
  }

  /** The table ranks exactly the binary operators the compiler and the checker accept. */
  lemma PrecedenceCoversOperators(op: string)
    ensures Precedence(op).Some? <==> Operators.IsBinaryOperator(op)
  {
  }

  predicate BindsTighter(a: string, b: string) {
    Precedence(a).Some? && Precedence(b).Some? && Precedence(a).value > Precedence(b).value
  }

  /** From tightest to loosest: multiplicative, additive, shifts, relational, equality. */
  lemma PrecedenceOrderArithmetic()
    ensures BindsTighter("*", "+") && BindsTighter("+", "<<") && BindsTighter("<<", "<")
    ensures BindsTighter("<", "==")
  {
    assert Precedence("*") == Some(14) && Precedence("+") == Some(13) && Precedence("<<") == Some(12);
    assert Precedence("<") == Some(11) && Precedence("==") == Some(10);
  }

  /** Below equality, from tightest to loosest: `&`, `^`, `|`, `&&`, `||`. */
  lemma PrecedenceOrderLogic()
    ensures BindsTighter("==", "&") && BindsTighter("&", "^")
    ensures BindsTighter("^", "|") && BindsTighter("|", "&&") && BindsTighter("&&", "||")
  {
    assert Precedence("==") == Some(10) && Precedence("&") == Some(9);
    assert Precedence("^") == Some(8) && Precedence("|") == Some(7) && Precedence("&&") == Some(6);
    assert Precedence("||") == Some(5);
  }

  /** Operators of one group bind alike. */
  lemma PrecedenceGroups()
    ensures Precedence("*") == Precedence("/") == Precedence("%") == Some(14)
    ensures Precedence("+") == Precedence("-") == Some(13)
    ensures Precedence("<<") == Precedence(">>") == Precedence(">>>") == Some(12)
    ensures Precedence("<") == Precedence(">") == Precedence("<=") == Precedence(">=") == Some(11)
    ensures Precedence("===") == Precedence("!==") == Precedence("==") == Precedence("!=") == Some(10)
  {
  }
}
