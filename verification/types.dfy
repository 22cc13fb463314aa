/*******************************************************************************
 *  Compiled schemas (src/types.ts).
 *
 *  A compiled schema is a JavaScript value: a literal, a regular expression,
 *  an array type `[T]`, a shape `{k: T, …}` or a combinator function.  `Ty`
 *  is that value as a closed datatype.  Arrays, shapes and functions carry an
 *  `id` standing for their object identity, which the visited set of the
 *  validator and the marker map of the mock engine are keyed by.
 *******************************************************************************/

module Types {
  import opened Outcomes
  import opened Values
  import Operators

  type Id = nat

  /** A deferred ("packed") expression over the root datum, built by the compiler from `self`. */
  datatype Expr =
    | RootE                               // self
    | Member(base: Expr, key: string)     // base[key]
    | Const(v: Value)                     // a primitive known at compile time
    | BinaryE(op: string, l: Expr, r: Expr)
    | UnaryE(op: string, e: Expr)
    | Opaque(what: string)                // a function the model cannot evaluate

  datatype Entry = Entry(key: string, t: Ty)

  datatype Case = Case(cond: Ty, body: Ty)

  datatype Ty =
    | Void                                // undefined
    | Lit(v: Value)                       // a primitive literal
    | Pattern(re: Regex)                  // a regular expression
    | List(id: Id, elems: seq<Ty>)        // an array type
    | Shape(id: Id, entries: seq<Entry>)  // a plain object type, raw keys in insertion order
    | Fn(id: Id, c: Comb)                 // a combinator function
    | Packed(id: Id, e: Expr)             // a deferred expression function
    | Factory(kind: FactoryKind)          // a combinator factory such as `anyOf`, not yet applied
    | Foreign(what: string)               // a table entry the model does not represent (`Infinity`)

  type Bits = b: nat | b >= 1 witness 1

  /** The combinators; each one's validate and mock behaviour is given by the engines. */
  datatype Comb =
    | BoolK
    | IntK(bits: Bits)
    | UIntK(bits: Bits)
    | StrK
    | FloatK(name: string)                // float, double, number: floating point, not modelled
    | Tuple(items: seq<Ty>)
    | Rest(inner: Ty)
    | Eq(val: Ty)
    | Enum(vals: seq<Ty>)
    | Optional(inner: Ty)
    | MockAlt(alts: seq<Ty>, inner: Ty)
    | MockKey(keyMock: Ty, inner: Ty)
    | AllOf(ts: seq<Ty>)
    | OneOf(ts: seq<Ty>)
    | AnyOf(ts: seq<Ty>)
    | AnyK
    | Not(t: Ty)
    | NilK
    | NeverK
    | Ref(target: Option<seq<string>>)    // None: the root type
    | Self(e: Expr)
    | Definition(path: seq<string>, shown: string)   // the lookup path, and the path as a message prints it
    | Match(scrutinee: Ty, cases: seq<Case>)
    | Description(desc: Ty, inner: Ty)
    | Range(lo: int, hi: int, inner: Ty)

  /** Identities below this bound belong to the combinator table; compiled objects get larger ones. */
  const FIRST_FRESH_ID: Id := 32

  predicate IsFunction(t: Ty) {
    t.Fn? || t.Packed? || t.Factory?
  }

  /** `_.isObjectLike` on a compiled value: arrays, plain objects and regular expressions. */
  predicate IsObjectLikeTy(t: Ty) {
    t.List? || t.Shape? || t.Pattern?
  }

  predicate TruthyTy(t: Ty) {
    match t
    case Void => false
    case Lit(v) => Truthy(v)
    case _ => true
  }

  // ---------------------------------------------------------------------------
  //  The combinator table
  // ---------------------------------------------------------------------------

  /** The combinator factories of the table: functions that build a combinator from arguments. */
  datatype FactoryKind =
    | TupleF | EqF | EnumF | MergeF | OptionalF | MockF | MockKeyF | AllOfF | OneOfF | AnyOfF
    | NotF | RefF | SelfF | MatchF | DescriptionF | RangeF | DefinitionF | RestF

  /** The name a factory is exported under (`_` is a second name of `description`). */
  function FactoryName(k: FactoryKind): string {
    match k
    case TupleF => "tuple"
    case EqF => "eq"
    case EnumF => "enum"
    case MergeF => "merge"
    case OptionalF => "optional"
    case MockF => "mock"
    case MockKeyF => "mockKey"
    case AllOfF => "allOf"
    case OneOfF => "oneOf"
    case AnyOfF => "anyOf"
    case NotF => "not"
    case RefF => "ref"
    case SelfF => "self"
    case MatchF => "match"
    case DescriptionF => "description"
    case RangeF => "range"
    case DefinitionF => "definition"
    case RestF => "rest"
  }

  /** The factory exported under a name, if any. */
  function FactoryNamed(name: string): (r: Option<FactoryKind>)
    ensures r.Some? ==> FactoryName(r.value) == name || (name == "_" && r.value == DescriptionF)
  {
    if name == "tuple" then Some(TupleF)
    else if name == "eq" then Some(EqF)
    else if name == "enum" then Some(EnumF)
    else if name == "merge" then Some(MergeF)
    else if name == "optional" then Some(OptionalF)
    else if name == "mock" then Some(MockF)
    else if name == "mockKey" then Some(MockKeyF)
    else if name == "allOf" then Some(AllOfF)
    else if name == "oneOf" then Some(OneOfF)
    else if name == "anyOf" then Some(AnyOfF)
    else if name == "not" then Some(NotF)
    else if name == "ref" then Some(RefF)
    else if name == "self" then Some(SelfF)
    else if name == "match" then Some(MatchF)
    else if name == "description" || name == "_" then Some(DescriptionF)
    else if name == "range" then Some(RangeF)
    else if name == "definition" then Some(DefinitionF)
    else if name == "rest" then Some(RestF)
    else None
  }

  /** Every factory is found under its own name. */
  lemma FactoryNamesRoundTrip(k: FactoryKind)
    ensures FactoryNamed(FactoryName(k)) == Some(k)
  {
  }

  /** The own properties of the exported combinator table, by name. */
  function Builtin(name: string): (r: Option<Ty>)
    ensures r.Some? && r.value.Fn? ==> r.value.id < FIRST_FRESH_ID
  {
    match FactoryNamed(name)
    case Some(k) => Some(Factory(k))
    case None =>
      if name == "bool" then Some(Fn(1, BoolK))
      else if name == "int8" then Some(Fn(2, IntK(8)))
      else if name == "byte" then Some(Fn(3, IntK(8)))
      else if name == "int16" then Some(Fn(4, IntK(16)))
      else if name == "short" then Some(Fn(5, IntK(16)))
      else if name == "int32" then Some(Fn(6, IntK(32)))
      else if name == "int" then Some(Fn(7, IntK(32)))
      else if name == "int64" then Some(Fn(8, IntK(64)))
      else if name == "int128" then Some(Fn(9, IntK(128)))
      else if name == "i128" then Some(Fn(10, IntK(128)))
      else if name == "long" then Some(Fn(11, IntK(64)))
      else if name == "uint8" then Some(Fn(12, UIntK(8)))
      else if name == "uint16" then Some(Fn(13, UIntK(16)))
      else if name == "char" then Some(Fn(14, UIntK(16)))
      else if name == "uint32" then Some(Fn(15, UIntK(32)))
      else if name == "uint" then Some(Fn(16, UIntK(32)))
      else if name == "uint64" then Some(Fn(17, UIntK(64)))
      else if name == "uint128" then Some(Fn(18, UIntK(128)))
      else if name == "float" then Some(Fn(19, FloatK("float")))
      else if name == "double" || name == "number" then Some(Fn(20, FloatK("double")))
      else if name == "str" then Some(Fn(21, StrK))
      else if name == "any" then Some(Fn(22, AnyK))
      else if name == "nil" then Some(Fn(23, NilK))
      else if name == "never" then Some(Fn(24, NeverK))
      else if name == "Infinity" then Some(Foreign("Infinity"))
      else if name == "undefined" then Some(Void)
      else None
  }

  predicate InTable(name: string) {
    Builtin(name).Some?
  }

  // ---------------------------------------------------------------------------
  //  Integer kinds and range bounds
  // ---------------------------------------------------------------------------

  function IntMin(bits: Bits): int {
    -(Operators.Pow2(bits - 1) as int)
  }

  function IntMax(bits: Bits): int {
    Operators.Pow2(bits - 1) - 1
  }

  function UIntMax(bits: Bits): int {
    Operators.Pow2(bits) - 1
  }

  /** The bounds of the integer kinds of the table, written out. */
  lemma IntBoundsOfTable()
    ensures IntMin(8) == -128 && IntMax(8) == 127
    ensures IntMin(16) == -32768 && IntMax(16) == 32767
    ensures IntMin(32) == -2147483648 && IntMax(32) == 2147483647
    ensures IntMin(64) == -9223372036854775808 && IntMax(64) == 9223372036854775807
    ensures UIntMax(8) == 255 && UIntMax(16) == 65535 && UIntMax(32) == 4294967295
    ensures UIntMax(64) == 18446744073709551615
  {
    assert Operators.Pow2(4) == 16;
    Operators.Pow2Add(4, 3);
    Operators.Pow2Add(4, 4);
    Operators.Pow2Add(8, 7);
    Operators.Pow2Add(8, 8);
    Operators.Pow2Add(16, 15);
    Operators.Pow2Add(16, 16);
    Operators.Pow2Add(32, 31);
    Operators.Pow2Add(32, 32);
  }

  /**
   * The bounds `range(...args, type)` fixes: two numbers are the minimum and the
   * maximum, a single number `a` spans from 0 to `a` whatever its sign, and any
   * other count of arguments is rejected.
   */
  function RangeBounds(args: seq<int>): (r: Result<(int, int)>)
    ensures |args| == 2 ==> r == Ok((args[0], args[1]))
    ensures |args| == 1 ==> r.Ok? && r.value.0 <= 0 <= r.value.1
    ensures |args| == 1 ==> (r.value.0 == args[0] || r.value.1 == args[0])
    ensures |args| != 1 && |args| != 2 ==> r == Fail(Thrown("arguments of range should not be empty"))
  {
    if |args| == 2 then Ok((args[0], args[1]))
    else if |args| == 1 then
      var a := args[0];
      Ok((if a > 0 then 0 else a, if a > 0 then a else 0))
    else Fail(Thrown("arguments of range should not be empty"))
  }

  // ---------------------------------------------------------------------------
  //  Path lookup (`_.get`) and `getError`
  // ---------------------------------------------------------------------------

  function EntryLookup(entries: seq<Entry>, k: string): Option<Ty> {
    if entries == [] then None
    else if entries[0].key == k then Some(entries[0].t)
    else EntryLookup(entries[1..], k)
  }

  /** `t[k]` on a compiled value, when the model knows it. */
  function Child(t: Ty, k: string): Option<Ty> {
    match t
    case Shape(_, entries) => EntryLookup(entries, k)
    case List(_, elems) =>
      if k == "length" then Some(Lit(Num(|elems|)))
      else (match IndexOf(k)
        case Some(i) => if i < |elems| then Some(elems[i]) else None
        case None => None)
    case Lit(Str(s)) =>
      if k == "length" then Some(Lit(Num(|s|)))
      else (match IndexOf(k)
        case Some(i) => if i < |s| then Some(Lit(Str([s[i]]))) else None
        case None => None)
    case _ => None
  }

  /** `_.get(t, path)`: `None` stands for undefined (a missing step, or an undefined value at the end). */
  function GetPath(t: Ty, path: seq<string>): (r: Option<Ty>)
    ensures r.Some? ==> r.value != Void
    decreases |path|
  {
    if path == [] then None
    else
      match Child(t, path[0])
      case None => None
      case Some(c) => if |path| == 1 then (if c == Void then None else Some(c)) else GetPath(c, path[1..])
  }

  /** `getError`: the value at the path, or the error `'this path is not found'`. */
  function GetError(t: Ty, path: seq<string>): (r: Result<Ty>)
    ensures r.Ok? <==> GetPath(t, path).Some?
    ensures r.Ok? ==> r.value == GetPath(t, path).value
    ensures r.Fail? ==> r.failure == Thrown("this path is not found")
  {
    match GetPath(t, path)
    case Some(c) => Ok(c)
    case None => Fail(Thrown("this path is not found"))
  }

  /** A path through nested shapes reaches the type stored at its end. */
  lemma {:induction false} GetPathThroughShapes(id: Id, entries: seq<Entry>, k: string, rest: seq<string>)
    requires EntryLookup(entries, k).Some?
    ensures GetPath(Shape(id, entries), [k] + rest) ==
              if rest == [] then (if EntryLookup(entries, k).value == Void then None else EntryLookup(entries, k))
              else GetPath(EntryLookup(entries, k).value, rest)
  {
    assert ([k] + rest)[1..] == rest;
  }

  /** The text `String(path)` gives for a definition path (array elements joined by commas). */
  function JoinComma(path: seq<string>): string {
    if path == [] then "" else if |path| == 1 then path[0] else path[0] + "," + JoinComma(path[1..])
  }
}
