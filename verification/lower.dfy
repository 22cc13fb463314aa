/*******************************************************************************
 *  The lowering compiler (src/grammar/transform/ast-lier.ts): a dispatch
 *  table from node kinds to handlers that turns a parsed schema program into
 *  a compiled schema and a table of declarations.
 *
 *  Expressions over `self` are not evaluated at compile time; the compiler
 *  wraps them as "packed" functions (`Packed`), and `unpacking` turns a packed
 *  function into the combinator `self(fn)` wherever a type is expected.  Every
 *  object the compiler creates (a shape, an array type, a combinator) takes a
 *  fresh identity from the state.
 *******************************************************************************/

module Lowering {
  import opened Outcomes
  import opened Values
  import opened Types
  import opened Ast
  import opened CompileTime
  import Operators
  import Expressions

  /** The compiler's context (its declaration table) and the model's supply of identities and random draws. */
  datatype LState = LState(declares: Ty, next: Id, draws: nat)

  datatype Lowered = Lowered(t: Ty, st: LState)

  datatype LoweredList = LoweredList(ts: seq<Ty>, st: LState)

  datatype LoweredCases = LoweredCases(cases: seq<Case>, st: LState)

  datatype LoweredEntries = LoweredEntries(entries: seq<Entry>, st: LState)

  datatype Property = Property(key: string, t: Ty, st: LState)

  /** What the compiler returns: the declarations and the compiled schema. */
  datatype Tree = Tree(declares: Ty, assignment: Ty)

  /** The random source `_.random` draws from: the n-th draw. */
  type Picker = nat -> int

  /** Identities are only ever taken, draws only ever made, and the declaration table stays the same object. */
  predicate Grows(a: LState, b: LState) {
    a.next <= b.next && a.draws <= b.draws
    && (a.declares.Shape? ==> b.declares.Shape? && b.declares.id == a.declares.id)
  }

  function Bump(st: LState): (r: LState)
    ensures Grows(st, r) && r.next == st.next + 1
  {
    st.(next := st.next + 1)
  }

  // ---------------------------------------------------------------------------
  //  Packing
  // ---------------------------------------------------------------------------

  /** `unpacking`: a packed expression becomes `self(fn)`; anything else is returned as is. */
  function Unpack(t: Ty, st: LState): (r: Lowered)
    ensures !r.t.Packed?
    ensures Grows(st, r.st)
    ensures !t.Packed? ==> r == Lowered(t, st)
    ensures t.Packed? ==> r.t.Fn? && r.t.c == Self(t.e) && r.t.id == st.next
  {
    if t.Packed? then Lowered(Fn(st.next, Self(t.e)), Bump(st)) else Lowered(t, st)
  }

  /** The expression a function operand contributes to a packed expression. */
  function Deferred(t: Ty): Expr {
    match t
    case Packed(_, e) => e
    case _ => if IsFunction(t) then Opaque("a combinator applied to the datum") else
                match PrimOf(t)
                case Some(v) => Const(v)
                case None => Opaque("an object operand")
  }

  // ---------------------------------------------------------------------------
  //  Combinator factories applied at compile time
  // ---------------------------------------------------------------------------

  function Arg(args: seq<Ty>, i: nat): Ty {
    if i < |args| then args[i] else Void
  }

  /** `_.random(0, n - 1)` from one draw. */
  function Draw(p: int, n: nat): (i: nat)
    requires n > 0
    ensures i < n
  {
    if p < 0 then 0 else if p >= n then n - 1 else p
  }

  /** A path string that lodash takes as a single key. */
  function SingleKey(s: string): Result<seq<string>> {
    if exists i :: 0 <= i < |s| && (s[i] == '.' || s[i] == '[') then Fail(Unmodelled("a path string lodash would parse"))
    else Ok([s])
  }

  function StringItems(ts: seq<Ty>): Option<seq<string>> {
    if ts == [] then Some([])
    else if ts[0].Lit? && ts[0].v.Str? then
      match StringItems(ts[1..])
      case Some(rest) => Some([ts[0].v.s] + rest)
      case None => None
    else None
  }

  /** The target of `ref(path)`: `None` (the root type) when the path is falsy or has empty text. */
  function RefTarget(t: Ty): (r: Result<Option<seq<string>>>)
    ensures t.Void? || t == Lit(Null) || t == Lit(Str("")) ==> r == Ok(None)
    ensures t.Lit? && t.v.Str? && t.v.s != "" && (forall i :: 0 <= i < |t.v.s| ==> t.v.s[i] != '.' && t.v.s[i] != '[') ==>
              r == Ok(Some([t.v.s]))
  {
    match t
    case Void => Ok(None)
    case Lit(v) =>
      if !Truthy(v) then Ok(None)
      else if v.Str? then
        var p :- SingleKey(v.s);
        Ok(Some(p))
      else if IsPrimitive(v) then Ok(Some([ToText(v).value]))
      else Fail(Unmodelled("a reference path that is an object"))
    case List(_, elems) =>
      (match StringItems(elems)
       case Some(ks) => if JoinComma(ks) == "" then Ok(None) else Ok(Some(ks))
       case None => Fail(Unmodelled("a reference path holding values other than strings")))
    case _ => Fail(Unmodelled("a reference path that is not a string or an array of strings"))
  }

  /** The path of `definition(paths)`. */
  function DefinitionPath(t: Ty): Result<seq<string>> {
    if t.Lit? && t.v.Str? then SingleKey(t.v.s)
    else if t.List? && StringItems(t.elems).Some? then Ok(StringItems(t.elems).value)
    else Fail(Unmodelled("a definition path that is not a string or an array of strings"))
  }

  /** The integers a list of compiled literals stands for. */
  function Numbers(ts: seq<Ty>): (r: Result<seq<int>>)
    ensures r.Ok? <==> forall i :: 0 <= i < |ts| ==> ts[i].Lit? && ts[i].v.Num?
    ensures r.Ok? ==> |r.value| == |ts| && forall i :: 0 <= i < |ts| ==> r.value[i] == ts[i].v.n
  {
    if ts == [] then Ok([])
    else if ts[0].Lit? && ts[0].v.Num? then
      var rest :- Numbers(ts[1..]);
      Ok([ts[0].v.n] + rest)
    else Fail(Unmodelled("a range bound that is not an integer"))
  }

  /** `mock(...mocks, type)` and `mockKey(...mocks, type)`: at least one mock besides the type. */
  function MockComb(pick: Picker, keyed: bool, args: seq<Ty>, draws: nat): (r: Result<(Comb, nat)>)
    ensures |args| < 2 <==> r == Fail(Thrown("at least one mock should be specified"))
    ensures !keyed && |args| >= 2 ==> r == Ok((MockAlt(args[..|args| - 1], args[|args| - 1]), draws))
    ensures keyed && |args| >= 2 ==>
              r.Ok? && r.value.1 == draws + 1 && r.value.0.MockKey? && r.value.0.keyMock in args[..|args| - 1]
              && r.value.0.inner == args[|args| - 1]
  {
    if |args| < 2 then Fail(Thrown("at least one mock should be specified"))
    else
      var mocks := args[..|args| - 1];
      var inner := args[|args| - 1];
      if !keyed then Ok((MockAlt(mocks, inner), draws))
      else Ok((MockKey(mocks[Draw(pick(draws), |mocks|)], inner), draws + 1))
  }

  /** `range(...bounds, type)`: one or two integer bounds before the type. */
  function RangeComb(args: seq<Ty>): (r: Result<Comb>)
    ensures |args| < 2 || |args| > 3 ==> r == Fail(Thrown("arguments of range should not be empty"))
    ensures r.Ok? && |args| == 2 ==> r.value.Range? && r.value.lo <= 0 <= r.value.hi && r.value.inner == args[1]
    ensures |args| == 3 && args[0].Lit? && args[0].v.Num? && args[1].Lit? && args[1].v.Num? ==>
              r == Ok(Range(args[0].v.n, args[1].v.n, args[2]))
  {
    if |args| < 2 || |args| > 3 then Fail(Thrown("arguments of range should not be empty"))
    else
      var bounds :- Numbers(args[..|args| - 1]);
      var b :- RangeBounds(bounds);
      Ok(Range(b.0, b.1, args[|args| - 1]))
  }

  /**
   * The combinator a factory of the table builds from its arguments, and the
   * draws it made.
   */
  function FactoryComb(pick: Picker, k: FactoryKind, args: seq<Ty>, draws: nat): (r: Result<(Comb, nat)>)
    ensures k in {AllOfF, OneOfF, AnyOfF, EnumF, EqF, NotF, OptionalF, RestF, DescriptionF} ==>
              r.Ok? && r.value.1 == draws
    ensures k == AnyOfF ==> r == Ok((AnyOf(args), draws))
    ensures k == AllOfF ==> r == Ok((AllOf(args), draws))
    ensures k == OneOfF ==> r == Ok((OneOf(args), draws))
    ensures r.Ok? ==> r.value.1 >= draws
  {
    match k
    case TupleF =>
      if Arg(args, 0).List? then Ok((Tuple(Arg(args, 0).elems), draws))
      else Fail(Unmodelled("tuple applied to something other than an array"))
    case EqF => Ok((Eq(Arg(args, 0)), draws))
    case EnumF => Ok((Enum(args), draws))
    case OptionalF => Ok((Optional(Arg(args, 0)), draws))
    case MockF => MockComb(pick, false, args, draws)
    case MockKeyF => MockComb(pick, true, args, draws)
    case AllOfF => Ok((AllOf(args), draws))
    case OneOfF => Ok((OneOf(args), draws))
    case AnyOfF => Ok((AnyOf(args), draws))
    case NotF => Ok((Not(Arg(args, 0)), draws))
    case RefF =>
      var target :- RefTarget(Arg(args, 0));
      Ok((Ref(target), draws))
    case SelfF =>
      if Arg(args, 0).Packed? then Ok((Self(Arg(args, 0).e), draws))
      else Fail(Unmodelled("self applied to something other than an expression"))
    case DescriptionF => Ok((Description(Arg(args, 0), Arg(args, 1)), draws))
    case RangeF =>
      var c :- RangeComb(args);
      Ok((c, draws))
    case DefinitionF =>
      var path :- DefinitionPath(Arg(args, 0));
      Ok((Definition(path, JoinComma(path)), draws))
    case RestF => Ok((Rest(Arg(args, 0)), draws))
    case MergeF => Fail(Unmodelled("the factory merge applied at compile time"))
    case MatchF => Fail(Unmodelled("the factory match applied at compile time"))
  }

  /** Calling a compiled value with arguments at compile time: only the factories are modelled. */
  function Invoke(pick: Picker, f: Ty, args: seq<Ty>, st: LState): (r: Result<Lowered>)
    ensures r.Ok? ==> Grows(st, r.value.st)
    ensures r.Ok? ==> f.Factory? && r.value.t.Fn? && r.value.t.id == st.next
  {
    match f
    case Factory(k) =>
      var made :- FactoryComb(pick, k, args, st.draws);
      Ok(Lowered(Fn(st.next, made.0), st.(next := st.next + 1, draws := made.1)))
    case _ => Fail(Unmodelled("a combinator or a value called at compile time"))
  }

  // ---------------------------------------------------------------------------
  //  Enum members
  // ---------------------------------------------------------------------------

  /**
   * The number a truthy `value` of an enum member resets the counter to, or
   * `None` when its value is falsy (or it has none) and the counter goes on.
   */
  function EnumReset(item: Node): (r: Result<Option<int>>)
    ensures item.NumN? ==> r == Ok(if item.n != 0 then Some(item.n) else None)
    ensures item.NullN? || (item.BoolN? && !item.b) ==> r == Ok(None)
    ensures item.BoolN? && item.b ==> r == Ok(Some(1))
  {
    if item.NumN? then Ok(if item.n != 0 then Some(item.n) else None)
    else if item.BoolN? then Ok(if item.b then Some(1) else None)
    else if item.StrN? then NumericText(item.s)
    else if item.IdentN? then NumericText(item.name)
    else if item.RegN? || item.PathN? || item.DeclareN? || item.RestN? || item.OptionalN? || item.ArrayN?
            || item.TupleN? || item.CaseN? || item.PropertyN? then
      Fail(Unmodelled("an enum member whose value is not a primitive"))
    else Ok(None)
  }

  /** `index = s; args.push(index++)`: a non-empty text counts as the number it reads as. */
  function NumericText(s: string): Result<Option<int>> {
    if s == "" then Ok(None)
    else match Operators.StringToNumber(s)
      case Int(k) => Ok(Some(k))
      case _ => Fail(Unmodelled("an enum member that does not read as an integer"))
  }

  /** The numbers the enum handler gives the members from `i` on, the counter standing at `index`. */
  function EnumNumbers(items: seq<Node>, i: nat, index: int): (r: Result<seq<Ty>>)
    ensures r.Ok? ==> forall j :: 0 <= j < |r.value| ==> r.value[j].Lit? && r.value[j].v.Num?
    decreases |items| - i
  {
    if i >= |items| then Ok([])
    else if items[i].CommentN? then EnumNumbers(items, i + 1, index)
    else
      var reset :- EnumReset(items[i]);
      var k := if reset.Some? then reset.value else index;
      var rest :- EnumNumbers(items, i + 1, k + 1);
      Ok([Lit(Num(k))] + rest)
  }

  // ---------------------------------------------------------------------------
  //  The dispatch table
  // ---------------------------------------------------------------------------

  /** `table.router`: the handler for the node's kind; kinds with no handler leave the model. */
  function Lower(pick: Picker, n: Node, st: LState): (r: Result<Lowered>)
    ensures r.Ok? ==> Grows(st, r.value.st)
    decreases n, 2
  {
    match n
    case NoNode => Ok(Lowered(Void, st))
    case UnaryN(_, _) => LowerUnary(pick, n, st)
    case MemberN(_, _) => LowerMember(pick, n, st)
    case BinaryN(_, _, _) => LowerBinary(pick, n, st)
    case ObjectN(_) => LowerObject(pick, n, st)
    case EnumN(items) => LowerEnum(items, st)
    case MatchN(_, _) => LowerMatch(pick, n, st)
    case CallN(_, _) => LowerCall(pick, n, st)
    case TupleN(_) => LowerTuple(pick, n, st)
    case IdentN(name) => Ok(LowerIdent(name, st))
    case PathN(computed, target) =>
      if !computed && target.IdentN? then Ok(Lowered(Lit(Str(target.name)), st))
      else Lower(pick, target, st)
    case NullN => Ok(Lowered(Lit(Null), st))
    case BoolN(b) => Ok(Lowered(Lit(Bool(b)), st))
    case NumN(k) => Ok(Lowered(Lit(Num(k)), st))
    case StrN(s) => Ok(Lowered(Lit(Str(s)), st))
    case RegN(re) => Ok(Lowered(Pattern(re), st))
    case DeclareN(_, _) => LowerDeclare(pick, n, st)
    case SelfN => Ok(Lowered(Fn(st.next, Self(RootE)), Bump(st)))
    case RestN(_) => LowerModifier(pick, n, st)
    case OptionalN(_) => LowerModifier(pick, n, st)
    case ElementN(_, _) => LowerElement(pick, n, st)
    case ArrayN(_) => LowerArray(pick, n, st)
    case _ => Fail(Unmodelled("a node kind the compiler has no handler for"))
  }

  /** The object handler: a new plain object holding the properties in order. */
  function LowerObject(pick: Picker, n: Node, st: LState): (r: Result<Lowered>)
    requires n.ObjectN?
    ensures r.Ok? ==> Grows(st, r.value.st) && r.value.t.Shape? && r.value.t.id == st.next
    decreases n, 1
  {
    var ps :- LowerProperties(pick, n, 0, [], Bump(st));
    Ok(Lowered(Shape(st.next, ps.entries), ps.st))
  }

  /** The enum handler: the members numbered, as an `enum` combinator. */
  function LowerEnum(items: seq<Node>, st: LState): (r: Result<Lowered>)
    ensures r.Ok? ==> Grows(st, r.value.st) && r.value.t.Fn? && r.value.t.c.Enum?
    ensures r.Ok? <==> EnumNumbers(items, 0, 0).Ok?
    ensures r.Ok? ==> r.value.t.c.vals == EnumNumbers(items, 0, 0).value
  {
    var vals :- EnumNumbers(items, 0, 0);
    Ok(Lowered(Fn(st.next, Enum(vals)), Bump(st)))
  }

  /** The match handler: the routed scrutinee (not unpacked) and the unpacked cases. */
  function LowerMatch(pick: Picker, n: Node, st: LState): (r: Result<Lowered>)
    requires n.MatchN?
    ensures r.Ok? ==> Grows(st, r.value.st) && r.value.t.Fn? && r.value.t.c.Match?
    decreases n, 1
  {
    var scrutinee :- Lower(pick, n.test, st);
    var cs :- LowerCases(pick, n, 0, [], scrutinee.st);
    Ok(Lowered(Fn(cs.st.next, Match(scrutinee.t, cs.cases)), Bump(cs.st)))
  }

  /** The tuple handler: the unpacked items, comments skipped. */
  function LowerTuple(pick: Picker, n: Node, st: LState): (r: Result<Lowered>)
    requires n.TupleN?
    ensures r.Ok? ==> Grows(st, r.value.st) && r.value.t.Fn? && r.value.t.c.Tuple?
    ensures r.Ok? ==> forall j :: 0 <= j < |r.value.t.c.items| ==> !r.value.t.c.items[j].Packed?
    decreases n, 1
  {
    var xs :- LowerEach(pick, n, 0, true, true, [], st);
    Ok(Lowered(Fn(xs.st.next, Tuple(xs.ts)), Bump(xs.st)))
  }

  /** The identifier handler: the table's own property of that name, or a definition of the name. */
  function LowerIdent(name: string, st: LState): (r: Lowered)
    ensures Grows(st, r.st)
    ensures InTable(name) ==> r == Lowered(Builtin(name).value, st)
    ensures !InTable(name) ==> r.t == Fn(st.next, Definition([name], name))
  {
    match Builtin(name)
    case Some(t) => Lowered(t, st)
    case None => Lowered(Fn(st.next, Definition([name], name)), Bump(st))
  }

  /** The declaration handler: `_.set` of the unpacked body at the declared path. */
  function LowerDeclare(pick: Picker, n: Node, st: LState): (r: Result<Lowered>)
    requires n.DeclareN?
    ensures r.Ok? ==> Grows(st, r.value.st) && r.value.t == Void
    decreases n, 1
  {
    var v :- Lower(pick, n.body, st);
    var u := Unpack(v.t, v.st);
    var written :- SetPath(u.st.declares, n.path, u.t, u.st.next);
    Ok(Lowered(Void, u.st.(declares := written.0, next := written.1)))
  }

  /** `...T` and `T?`: `rest` and `optional` of the routed (not unpacked) inner type. */
  function LowerModifier(pick: Picker, n: Node, st: LState): (r: Result<Lowered>)
    requires n.RestN? || n.OptionalN?
    ensures r.Ok? ==> Grows(st, r.value.st) && r.value.t.Fn?
    ensures r.Ok? ==> (n.RestN? ==> r.value.t.c.Rest?) && (n.OptionalN? ==> r.value.t.c.Optional?)
    decreases n, 1
  {
    var v :- Lower(pick, n.inner, st);
    Ok(Lowered(Fn(v.st.next, if n.RestN? then Rest(v.t) else Optional(v.t)), Bump(v.st)))
  }

  /** The element handler: the declarations in order, then the unpacked assignment. */
  function LowerElement(pick: Picker, n: Node, st: LState): (r: Result<Lowered>)
    requires n.ElementN?
    ensures r.Ok? ==> Grows(st, r.value.st) && !r.value.t.Packed?
    decreases n, 1
  {
    var ds :- LowerEach(pick, n, 0, false, false, [], st);
    var a :- Lower(pick, n.assignment, ds.st);
    Ok(Unpack(a.t, a.st))
  }

  /** `T[]`: an array type holding the unpacked element type. */
  function LowerArray(pick: Picker, n: Node, st: LState): (r: Result<Lowered>)
    requires n.ArrayN?
    ensures r.Ok? ==> Grows(st, r.value.st) && r.value.t.List? && |r.value.t.elems| == 1 && !r.value.t.elems[0].Packed?
    decreases n, 1
  {
    var v :- Lower(pick, n.inner, st);
    var u := Unpack(v.t, v.st);
    Ok(Lowered(List(u.st.next, [u.t]), Bump(u.st)))
  }

  /**
   * The children of `n` from `i` on, routed in order (and unpacked when
   * `unpack`; comments skipped when `skipComments`), appended to `acc`.
   */
  function LowerEach(pick: Picker, n: Node, i: nat, unpack: bool, skipComments: bool, acc: seq<Ty>, st: LState)
    : (r: Result<LoweredList>)
    ensures r.Ok? ==> Grows(st, r.value.st)
    ensures r.Ok? ==> |acc| <= |r.value.ts| && r.value.ts[..|acc|] == acc
    ensures r.Ok? && unpack ==> forall j :: |acc| <= j < |r.value.ts| ==> !r.value.ts[j].Packed?
    ensures r.Ok? && !skipComments && i <= |Kids(n)| ==> |r.value.ts| == |acc| + |Kids(n)| - i
    decreases n, 0, |Kids(n)| - i, 1
  {
    if i >= |Kids(n)| then Ok(LoweredList(acc, st))
    else LowerEachFrom(pick, n, i, unpack, skipComments, acc, st)
  }

  /** Child `i` routed (and unpacked if asked), then the children after it. */
  function LowerEachFrom(pick: Picker, n: Node, i: nat, unpack: bool, skipComments: bool, acc: seq<Ty>, st: LState)
    : (r: Result<LoweredList>)
    requires i < |Kids(n)|
    ensures r.Ok? ==> Grows(st, r.value.st)
    ensures r.Ok? ==> |acc| <= |r.value.ts| && r.value.ts[..|acc|] == acc
    ensures r.Ok? && unpack ==> forall j :: |acc| <= j < |r.value.ts| ==> !r.value.ts[j].Packed?
    ensures r.Ok? && !skipComments ==> |r.value.ts| == |acc| + |Kids(n)| - i
    decreases n, 0, |Kids(n)| - i, 0
  {
    if skipComments && Kids(n)[i].CommentN? then LowerEach(pick, n, i + 1, unpack, skipComments, acc, st)
    else
      var v :- Lower(pick, Kids(n)[i], st);
      var u := if unpack then Unpack(v.t, v.st) else v;
      var r := LowerEach(pick, n, i + 1, unpack, skipComments, acc + [u.t], u.st);
      if r.Ok? then PrefixOfLonger(acc, u.t, r.value.ts); r else r
  }

  /** The unary handler. */
  function LowerUnary(pick: Picker, n: Node, st: LState): (r: Result<Lowered>)
    requires n.UnaryN?
    ensures r.Ok? ==> Grows(st, r.value.st)
    ensures Lower(pick, n.arg, st).Ok? && n.op == "!" ==>
              (IsFunction(Lower(pick, n.arg, st).value.t) || IsObjectLikeTy(Lower(pick, n.arg, st).value.t) ==>
                 r.Ok? && r.value.t.Fn? && r.value.t.c.Not? && !r.value.t.c.t.Packed?)
              && (PrimOf(Lower(pick, n.arg, st).value.t).Some? ==>
                 r == Ok(Lowered(Lit(Bool(!Truthy(PrimOf(Lower(pick, n.arg, st).value.t).value))), Lower(pick, n.arg, st).value.st)))
    ensures Lower(pick, n.arg, st).Ok? && Lower(pick, n.arg, st).value.t.Packed? && n.op in {"~", "+", "-"} ==>
              r.Ok? && r.value.t.Packed? && r.value.t.e == UnaryE(n.op, Lower(pick, n.arg, st).value.t.e)
    ensures Lower(pick, n.arg, st).Ok? && n.op != "!"
            && (IsObjectLikeTy(Lower(pick, n.arg, st).value.t)
                || (IsFunction(Lower(pick, n.arg, st).value.t) && !Lower(pick, n.arg, st).value.t.Packed?)) ==>
              r == Fail(Thrown("not implemented unary:" + n.op))
    decreases n, 1
  {
    var a :- Lower(pick, n.arg, st);
    var op := n.op;
    if IsFunction(a.t) then
      if a.t.Packed? && op == "!" then
        var u := Unpack(a.t, a.st);
        Ok(Lowered(Fn(u.st.next, Not(u.t)), Bump(u.st)))
      else if a.t.Packed? && (op == "~" || op == "+" || op == "-") then
        Ok(Lowered(Packed(a.st.next, UnaryE(op, a.t.e)), Bump(a.st)))
      else if op == "!" then Ok(Lowered(Fn(a.st.next, Not(a.t)), Bump(a.st)))
      else Fail(Thrown("not implemented unary:" + op))
    else if IsObjectLikeTy(a.t) then
      if op == "!" then Ok(Lowered(Fn(a.st.next, Not(a.t)), Bump(a.st)))
      else Fail(Thrown("not implemented unary:" + op))
    else
      var v :- ComputeUnary(op, a.t);
      Ok(Lowered(v, a.st))
  }

  /** The member handler. */
  function LowerMember(pick: Picker, n: Node, st: LState): (r: Result<Lowered>)
    requires n.MemberN?
    ensures r.Ok? ==> Grows(st, r.value.st)
    decreases n, 1
  {
    var ps :- LowerEach(pick, n, 0, true, false, [], st);
    var keys :- Texts(ps.ts);
    if n.host.SelfN? then
      Ok(Lowered(Packed(ps.st.next, Expressions.PathExpr(keys)), Bump(ps.st)))
    else if !n.host.IdentN? || InTable(n.host.name) then
      var o :- Lower(pick, n.host, ps.st);
      var v :- PropertyPath(o.t, keys);
      Ok(Lowered(v, o.st))
    else
      var shown := JoinedTexts(ps.ts).value;
      Ok(Lowered(Fn(ps.st.next, Definition([n.host.name] + keys, JoinComma([n.host.name] + shown))), Bump(ps.st)))
  }

  /**
   * The binary handler once both operands are compiled: `|` and `&` build
   * `anyOf` and `allOf` of the unpacked operands, the other operators build a
   * packed expression when the left operand is a function and are computed
   * at compile time otherwise; an unknown operator throws.
   */
  function Combine(op: string, l: Ty, rt: Ty, st: LState): (r: Result<Lowered>)
    ensures r.Ok? ==> Grows(st, r.value.st)
    ensures op in {"|", "&"} ==>
              var ts := [Unpack(l, st).t, Unpack(rt, Unpack(l, st).st).t];
              r.Ok? && r.value.t.Fn? && r.value.t.c == (if op == "|" then AnyOf(ts) else AllOf(ts))
    ensures Operators.IsBinaryOperator(op) && op !in {"|", "&"} && IsFunction(l) ==>
              r == Ok(Lowered(Packed(st.next, BinaryE(op, Deferred(l), Deferred(rt))), Bump(st)))
    ensures Operators.IsBinaryOperator(op) && op !in {"|", "&"} && !IsFunction(l) ==>
              (r.Ok? <==> Compute(op, l, rt).Ok?) && (r.Ok? ==> r.value.t == Compute(op, l, rt).value)
    ensures !Operators.IsBinaryOperator(op) ==> r == Fail(Thrown("not implemented binary operator:" + op))
  {
    if op == "|" || op == "&" then
      var ul := Unpack(l, st);
      var ur := Unpack(rt, ul.st);
      Ok(Lowered(Fn(ur.st.next, if op == "|" then AnyOf([ul.t, ur.t]) else AllOf([ul.t, ur.t])), Bump(ur.st)))
    else if Operators.IsBinaryOperator(op) then
      if IsFunction(l) then
        Ok(Lowered(Packed(st.next, BinaryE(op, Deferred(l), Deferred(rt))), Bump(st)))
      else
        var v :- Compute(op, l, rt);
        Ok(Lowered(v, st))
    else Fail(Thrown("not implemented binary operator:" + op))
  }

  /** The binary handler: both operands are routed, left first. */
  function LowerBinary(pick: Picker, n: Node, st: LState): (r: Result<Lowered>)
    requires n.BinaryN?
    ensures r.Ok? ==> Grows(st, r.value.st)
    decreases n, 1
  {
    var l :- Lower(pick, n.left, st);
    var rt :- Lower(pick, n.right, l.st);
    Combine(n.op, l.t, rt.t, rt.st)
  }

  /** The call handler. */
  function LowerCall(pick: Picker, n: Node, st: LState): (r: Result<Lowered>)
    requires n.CallN?
    ensures r.Ok? ==> Grows(st, r.value.st)
    ensures Lower(pick, n.callee, st).Ok? && !IsFunction(Lower(pick, n.callee, st).value.t)
            && TextOf(Lower(pick, n.callee, st).value.t).Some? ==>
              r == Fail(Thrown(TextOf(Lower(pick, n.callee, st).value.t).value + " is not function"))
    decreases n, 1
  {
    var c :- Lower(pick, n.callee, st);
    if IsFunction(c.t) then
      var args :- LowerEach(pick, n, 0, false, false, [], c.st);
      if c.t.Packed? then
        Ok(Lowered(Packed(args.st.next, Opaque("a call of a deferred expression")), Bump(args.st)))
      else if n.callee.MemberN? then
        var host :- Lower(pick, n.callee.host, args.st);
        Invoke(pick, c.t, args.ts, host.st)
      else Invoke(pick, c.t, args.ts, args.st)
    else
      match TextOf(c.t)
      case Some(text) => Fail(Thrown(text + " is not function"))
      case None => Fail(Unmodelled("the text of a callee that is not a function"))
  }

  /** The match handler's loop over the cases (nodes other than cases are skipped). */
  function LowerCases(pick: Picker, n: Node, i: nat, acc: seq<Case>, st: LState): (r: Result<LoweredCases>)
    requires n.MatchN?
    ensures r.Ok? ==> Grows(st, r.value.st)
    ensures r.Ok? ==> |acc| <= |r.value.cases| && r.value.cases[..|acc|] == acc
    ensures r.Ok? ==> forall j :: |acc| <= j < |r.value.cases| ==>
              !r.value.cases[j].cond.Packed? && !r.value.cases[j].body.Packed?
    decreases n, 0, |n.cases| - i
  {
    if i >= |n.cases| then Ok(LoweredCases(acc, st))
    else
      var cs := n.cases[i];
      if !cs.CaseN? then LowerCases(pick, n, i + 1, acc, st)
      else
        var c :- Lower(pick, cs.test, st);
        var cu := Unpack(c.t, c.st);
        var b :- Lower(pick, cs.body, cu.st);
        var bu := Unpack(b.t, b.st);
        LowerCases(pick, n, i + 1, acc + [Case(cu.t, bu.t)], bu.st)
  }

  /** The object handler's loop over the members (nodes other than properties are skipped). */
  function LowerProperties(pick: Picker, n: Node, i: nat, acc: seq<Entry>, st: LState): (r: Result<LoweredEntries>)
    requires n.ObjectN?
    ensures r.Ok? ==> Grows(st, r.value.st)
    ensures r.Ok? && i >= |n.members| ==> r.value.entries == acc
    decreases n, 0, |n.members| - i
  {
    if i >= |n.members| then Ok(LoweredEntries(acc, st))
    else
      var m := n.members[i];
      if !m.PropertyN? then LowerProperties(pick, n, i + 1, acc, st)
      else
        var p :- LowerProperty(pick, m, st);
        LowerProperties(pick, n, i + 1, PutEntry(acc, p.key, p.t), p.st)
  }

  /** One property: its key, its unpacked value, its decorators in order, then `optional` last. */
  function LowerProperty(pick: Picker, p: Node, st: LState): (r: Result<Property>)
    requires p.PropertyN?
    ensures r.Ok? ==> Grows(st, r.value.st)
    ensures r.Ok? && p.key.IdentN? ==> r.value.key == p.key.name
    ensures r.Ok? && p.optional ==> r.value.t.Fn? && r.value.t.c.Optional?
    ensures r.Ok? && !p.optional && p.decorators == [] ==> !r.value.t.Packed?
    decreases p, 1
  {
    var key :- PropertyKey(pick, p, st);
    var v :- Lower(pick, p.body, key.st);
    var u := Unpack(v.t, v.st);
    var d :- LowerDecorators(pick, p, 0, u.t, u.st);
    if p.optional then Ok(Property(key.key, Fn(d.st.next, Optional(d.t)), Bump(d.st)))
    else Ok(Property(key.key, d.t, d.st))
  }

  /** An identifier key is its name; any other key is routed and converted to text. */
  function PropertyKey(pick: Picker, p: Node, st: LState): (r: Result<Property>)
    requires p.PropertyN?
    ensures r.Ok? ==> Grows(st, r.value.st)
    ensures p.key.IdentN? ==> r == Ok(Property(p.key.name, Void, st))
    decreases p, 0, 0
  {
    if p.key.IdentN? then Ok(Property(p.key.name, Void, st))
    else
      var k :- Lower(pick, p.key, st);
      match TextOf(k.t)
      case Some(text) => Ok(Property(text, Void, k.st))
      case None => Fail(Unmodelled("a property key whose text is not modelled"))
  }

  /**
   * The decorators of `p` from `j` on, each applied to the value the earlier
   * ones produced: `@f(a…)` makes `f(a…, value)`.  A name missing from the
   * combinator table (or naming a falsy entry) throws.
   */
  function LowerDecorators(pick: Picker, p: Node, j: nat, value: Ty, st: LState): (r: Result<Lowered>)
    requires p.PropertyN?
    ensures r.Ok? ==> Grows(st, r.value.st)
    ensures j >= |p.decorators| ==> r == Ok(Lowered(value, st))
    decreases p, 0, |p.decorators| - j, 1
  {
    if j >= |p.decorators| then Ok(Lowered(value, st))
    else DecorateFrom(pick, p, j, value, st)
  }

  /** Decorator `j` applied to `value`, then the decorators after it. */
  function DecorateFrom(pick: Picker, p: Node, j: nat, value: Ty, st: LState): (r: Result<Lowered>)
    requires p.PropertyN? && j < |p.decorators|
    ensures r.Ok? ==> Grows(st, r.value.st)
    decreases p, 0, |p.decorators| - j, 0
  {
    if !p.decorators[j].DecoratorN? then LowerDecorators(pick, p, j + 1, value, st)
    else
      var w :- Decorate(pick, p.decorators[j], value, st);
      LowerDecorators(pick, p, j + 1, w.t, w.st)
  }

  /** One decorator `@f(a…)` applied to `value`: the call `f(a…, value)`. */
  function Decorate(pick: Picker, d: Node, value: Ty, st: LState): (r: Result<Lowered>)
    requires d.DecoratorN?
    ensures r.Ok? ==> Grows(st, r.value.st)
    ensures !InTable(d.name) ==> r == Fail(Thrown("not implemented decorate:" + d.name))
    decreases d, 1
  {
    match Builtin(d.name)
    case None => Fail(Thrown("not implemented decorate:" + d.name))
    case Some(f) =>
      if !TruthyTy(f) then Fail(Thrown("not implemented decorate:" + d.name))
      else
        var args :- LowerEach(pick, d, 0, false, false, [], st);
        Invoke(pick, f, args.ts + [value], args.st)
  }

  // ---------------------------------------------------------------------------
  //  The compiler's entry point
  // ---------------------------------------------------------------------------

  /** A fresh context: an empty declaration table, identities after it, no draws yet. */
  function EmptyLState(): LState {
    LState(Shape(FIRST_FRESH_ID, []), FIRST_FRESH_ID + 1, 0)
  }

  /** The index of the first element node, if any. */
  function FirstElement(nodes: seq<Node>): (r: Option<nat>)
    ensures r.Some? ==> r.value < |nodes| && nodes[r.value].ElementN?
                        && forall i :: 0 <= i < r.value ==> !nodes[i].ElementN?
    ensures r.None? ==> forall i :: 0 <= i < |nodes| ==> !nodes[i].ElementN?
  {
    if nodes == [] then None
    else if nodes[0].ElementN? then Some(0)
    else match FirstElement(nodes[1..])
      case Some(k) => Some(k + 1)
      case None => None
  }

  /**
   * The default export: only the first element node of the program is
   * compiled; a program with none compiles to null.
   */
  function Compile(pick: Picker, nodes: seq<Node>): (r: Result<Tree>)
    ensures FirstElement(nodes).None? ==> r == Ok(Tree(EmptyLState().declares, Lit(Null)))
    ensures r.Ok? ==> r.value.declares.Shape? && r.value.declares.id == FIRST_FRESH_ID
    ensures r.Ok? ==> !r.value.assignment.Packed?
  {
    match FirstElement(nodes)
    case None => Ok(Tree(EmptyLState().declares, Lit(Null)))
    case Some(k) =>
      var out :- Lower(pick, nodes[k], EmptyLState());
      Ok(Tree(out.st.declares, out.t))
  }
}
