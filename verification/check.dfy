/*******************************************************************************
 *  The reference checker (src/grammar/check.ts): a second dispatch table
 *  over the parsed program that evaluates what it can, records every name
 *  the program uses without declaring it, and finally rejects a use that the
 *  declarations (written into a supplied table) do not cover.
 *
 *  Two variants are modelled.  `AsWritten` follows the source: its
 *  identifier handler returns null for every name, and its unary handler
 *  calls a helper that the grammar utilities do not define.  `Corrected`
 *  returns a table name's combinator and decides "is an object" as
 *  intended; everything else is shared.
 *******************************************************************************/

module Checking {
  import opened Outcomes
  import opened Values
  import opened Types
  import opened Ast
  import opened CompileTime
  import Operators

  datatype Variant = AsWritten | Corrected

  /**
   * A used reference: a bare name, or the full path of a member access rooted
   * at a name.  A path keeps the keys lodash looks it up by and, apart, the
   * steps as an array prints them (null and undefined as empty text).
   */
  datatype UsedRef = Name(name: string) | KeyPath(keys: seq<string>, shown: seq<string>)

  datatype Use = Use(key: string, ref: UsedRef)

  datatype Declared = Declared(path: seq<string>, value: Ty)

  /** The checker's context: the declarations in the order met, and the used references by key. */
  datatype Context = Context(declares: seq<Declared>, using: seq<Use>)

  datatype Routed = Routed(v: Ty, cx: Context)

  datatype RoutedList = RoutedList(vs: seq<Ty>, cx: Context)

  datatype CheckedProperty = CheckedProperty(key: string, v: Ty, cx: Context)

  // ---------------------------------------------------------------------------
  //  Used references
  // ---------------------------------------------------------------------------

  function UseLookup(us: seq<Use>, key: string): Option<UsedRef> {
    if us == [] then None else if us[0].key == key then Some(us[0].ref) else UseLookup(us[1..], key)
  }

  /** `context.using[key] = ref`: a new key goes last, an existing key keeps its place. */
  function RecordUse(us: seq<Use>, key: string, ref: UsedRef): (r: seq<Use>)
    ensures UseLookup(r, key) == Some(ref)
    ensures forall k :: k != key ==> UseLookup(r, k) == UseLookup(us, k)
    ensures UseLookup(us, key).None? ==> r == us + [Use(key, ref)]
    ensures UseLookup(us, key).Some? ==> |r| == |us|
  {
    if us == [] then [Use(key, ref)]
    else if us[0].key == key then [Use(key, ref)] + us[1..]
    else
      var rest := RecordUse(us[1..], key, ref);
      assert UseLookup(us[1..], key).None? ==> [us[0]] + rest == us + [Use(key, ref)];
      [us[0]] + rest
  }

  /** `path.join(sep)`. */
  function Join(sep: string, path: seq<string>): string {
    if path == [] then "" else if |path| == 1 then path[0] else path[0] + sep + Join(sep, path[1..])
  }

  /** The path `_.has` looks a reference up by (an identifier is a single key). */
  function UsePath(ref: UsedRef): seq<string> {
    match ref
    case Name(n) => [n]
    case KeyPath(ks, _) => ks
  }

  /** The reference as the error message prints it (an array prints its steps comma-separated). */
  function UseText(ref: UsedRef): string {
    match ref
    case Name(n) => n
    case KeyPath(_, shown) => JoinComma(shown)
  }

  // ---------------------------------------------------------------------------
  //  The dispatch table
  // ---------------------------------------------------------------------------

  /** `table.router`; a node kind without a handler is returned as it is, which no later step reads. */
  function Route(variant: Variant, n: Node, cx: Context): (r: Result<Routed>)
    decreases n, 2
  {
    match n
    case NoNode => Ok(Routed(Void, cx))
    case UnaryN(_, _) => CheckUnary(variant, n, cx)
    case MemberN(_, _) => CheckMember(variant, n, cx)
    case BinaryN(_, _, _) => CheckBinary(variant, n, cx)
    case ObjectN(_) => CheckObject(variant, n, 0, [], cx)
    case EnumN(_) => Ok(Routed(Lit(Null), cx))
    case MatchN(_, _) => CheckMatch(variant, n, cx)
    case CallN(_, _) => CheckCall(variant, n, cx)
    case TupleN(_) => CheckTuple(variant, n, cx)
    case IdentN(name) => Ok(CheckIdent(variant, name, cx))
    case PathN(computed, target) =>
      if !computed && target.IdentN? then Ok(Routed(Lit(Str(target.name)), cx))
      else Route(variant, target, cx)
    case NullN => Ok(Routed(Lit(Null), cx))
    case BoolN(b) => Ok(Routed(Lit(Bool(b)), cx))
    case NumN(k) => Ok(Routed(Lit(Num(k)), cx))
    case StrN(s) => Ok(Routed(Lit(Str(s)), cx))
    case RegN(re) => Ok(Routed(Pattern(re), cx))
    case DeclareN(_, _) => CheckDeclare(variant, n, cx)
    case SelfN => Ok(Routed(Lit(Null), cx))
    case RestN(inner) => Route(variant, inner, cx)
    case OptionalN(inner) => Route(variant, inner, cx)
    case ElementN(_, _) => CheckElement(variant, n, cx)
    case ArrayN(inner) =>
      var i :- Route(variant, inner, cx);
      Ok(Routed(List(0, [i.v]), i.cx))
    case _ => Ok(Routed(Foreign("a node without a handler"), cx))
  }

  /** The identifier handler: a name outside the combinator table is recorded under itself. */
  function CheckIdent(variant: Variant, name: string, cx: Context): (r: Routed)
    ensures InTable(name) ==> r.cx == cx
    ensures !InTable(name) ==> r.cx.declares == cx.declares && UseLookup(r.cx.using, name) == Some(Name(name))
    ensures forall k :: k != name ==> UseLookup(r.cx.using, k) == UseLookup(cx.using, k)
    ensures variant == AsWritten ==> r.v == Lit(Null)
  {
    var after := if InTable(name) then cx else cx.(using := RecordUse(cx.using, name, Name(name)));
    Routed(if variant == Corrected && InTable(name) then Builtin(name).value else Lit(Null), after)
  }

  /** The tuple handler: the items are routed for their effect, comments skipped; the value is null. */
  function CheckTuple(variant: Variant, n: Node, cx: Context): (r: Result<Routed>)
    requires n.TupleN?
    decreases n, 1
  {
    var after :- RouteKids(variant, n, 0, true, cx);
    Ok(Routed(Lit(Null), after))
  }

  /** The declare handler: the body is routed and recorded as declared at its path. */
  function CheckDeclare(variant: Variant, n: Node, cx: Context): (r: Result<Routed>)
    requires n.DeclareN?
    decreases n, 1
  {
    var b :- Route(variant, n.body, cx);
    Ok(Routed(Void, b.cx.(declares := b.cx.declares + [Declared(n.path, b.v)])))
  }

  /** The element handler: the declarations in order, then the assignment. */
  function CheckElement(variant: Variant, n: Node, cx: Context): (r: Result<Routed>)
    requires n.ElementN?
    decreases n, 1
  {
    var after :- RouteKids(variant, n, 0, false, cx);
    var a :- Route(variant, n.assignment, after);
    Ok(Routed(Void, a.cx))
  }

  /** Routes the children of `n` from `i` on for their effect on the context. */
  function RouteKids(variant: Variant, n: Node, i: nat, skipComments: bool, cx: Context): (r: Result<Context>)
    decreases n, 0, |Kids(n)| - i, 1
  {
    if i >= |Kids(n)| then Ok(cx)
    else RouteKidsFrom(variant, n, i, skipComments, cx)
  }

  function RouteKidsFrom(variant: Variant, n: Node, i: nat, skipComments: bool, cx: Context): (r: Result<Context>)
    requires i < |Kids(n)|
    decreases n, 0, |Kids(n)| - i, 0
  {
    if skipComments && Kids(n)[i].CommentN? then RouteKids(variant, n, i + 1, skipComments, cx)
    else
      var k :- Route(variant, Kids(n)[i], cx);
      RouteKids(variant, n, i + 1, skipComments, k.cx)
  }

  /** Routes the children of `n` from `i` on, collecting their values after `acc`. */
  function RouteValues(variant: Variant, n: Node, i: nat, acc: seq<Ty>, cx: Context): (r: Result<RoutedList>)
    ensures r.Ok? && i <= |Kids(n)| ==> |r.value.vs| == |acc| + |Kids(n)| - i
    decreases n, 0, |Kids(n)| - i, 1
  {
    if i >= |Kids(n)| then Ok(RoutedList(acc, cx))
    else RouteValuesFrom(variant, n, i, acc, cx)
  }

  function RouteValuesFrom(variant: Variant, n: Node, i: nat, acc: seq<Ty>, cx: Context): (r: Result<RoutedList>)
    requires i < |Kids(n)|
    ensures r.Ok? ==> |r.value.vs| == |acc| + |Kids(n)| - i
    decreases n, 0, |Kids(n)| - i, 0
  {
    var k :- Route(variant, Kids(n)[i], cx);
    RouteValues(variant, n, i + 1, acc + [k.v], k.cx)
  }

  /**
   * The unary handler.  A function operand gives null.  As written, any
   * other operand reaches a call of a helper that does not exist, which
   * throws; corrected, `!` of an object is `not(object)`, another operator on
   * an object throws, and a primitive is computed.
   */
  function CheckUnary(variant: Variant, n: Node, cx: Context): (r: Result<Routed>)
    requires n.UnaryN?
    decreases n, 1
  {
    var a :- Route(variant, n.arg, cx);
    if IsFunction(a.v) then Ok(Routed(Lit(Null), a.cx))
    else if variant == AsWritten then Fail(Thrown("utils.isObject is not a function"))
    else if IsObjectLikeTy(a.v) then
      if n.op == "!" then Ok(Routed(Fn(0, Not(a.v)), a.cx))
      else Fail(Thrown("not implemented unary:" + n.op))
    else
      var v :- ComputeUnary(n.op, a.v);
      Ok(Routed(v, a.cx))
  }

  /**
   * The member handler.  The properties are routed first.  On `self` the
   * result is null; on a name outside the combinator table the full path is
   * recorded under `path.join('[]')`, where null and undefined steps print as
   * empty text; otherwise the host is routed and read along the properties.
   */
  function CheckMember(variant: Variant, n: Node, cx: Context): (r: Result<Routed>)
    requires n.MemberN?
    decreases n, 1
  {
    var ps :- RouteValues(variant, n, 0, [], cx);
    if n.host.SelfN? then Ok(Routed(Lit(Null), ps.cx))
    else
      var keys :- Texts(ps.vs);
      if !n.host.IdentN? || InTable(n.host.name) then
        var h :- Route(variant, n.host, ps.cx);
        var v :- PropertyPath(h.v, keys);
        Ok(Routed(v, h.cx))
      else
        var shown := JoinedTexts(ps.vs).value;
        var path := [n.host.name] + keys;
        Ok(Routed(Lit(Null), ps.cx.(using := RecordUse(ps.cx.using, Join("[]", [n.host.name] + shown), KeyPath(path, [n.host.name] + shown)))))
  }

  /** The binary handler: both operands are routed, then the operator is applied or refused. */
  function CheckBinary(variant: Variant, n: Node, cx: Context): (r: Result<Routed>)
    requires n.BinaryN?
    decreases n, 1
  {
    var l :- Route(variant, n.left, cx);
    var rt :- Route(variant, n.right, l.cx);
    if !Operators.IsBinaryOperator(n.op) then Fail(Thrown("not implemented binary operator:" + n.op))
    else Ok(Routed(Operate(n.op, l.v, rt.v), rt.cx))
  }

  /**
   * `left op right` on two checked values.  No operator throws; a result the
   * model does not represent (an operand that is an object or a function, a
   * division by zero) is opaque.
   */
  function Operate(op: string, l: Ty, r: Ty): (res: Ty)
    requires Operators.IsBinaryOperator(op)
    ensures PrimOf(l).Some? && PrimOf(r).Some? && Operators.Binary(op, PrimOf(l).value, PrimOf(r).value).Ok? ==>
              PrimOf(res) == Some(Operators.Binary(op, PrimOf(l).value, PrimOf(r).value).value)
  {
    if op == "&&" || op == "||" || (PrimOf(l).Some? && PrimOf(r).Some?) then
      match Compute(op, l, r)
      case Ok(v) => v
      case Fail(_) => Foreign("an operator result outside the model")
    else Foreign("an operator applied to an object")
  }

  /** The object handler: the properties in order; decorators are looked up and their arguments routed. */
  function CheckObject(variant: Variant, n: Node, i: nat, acc: seq<Entry>, cx: Context): (r: Result<Routed>)
    requires n.ObjectN?
    decreases n, 0, |n.members| - i
  {
    if i >= |n.members| then Ok(Routed(Shape(0, acc), cx))
    else if !n.members[i].PropertyN? then CheckObject(variant, n, i + 1, acc, cx)
    else
      var p :- CheckProperty(variant, n.members[i], cx);
      CheckObject(variant, n, i + 1, PutEntry(acc, p.key, p.v), p.cx)
  }

  /** The property key as `ret[key]` converts it. */
  function KeyText(t: Ty): Result<string> {
    match TextOf(t)
    case Some(s) => Ok(s)
    case None => Fail(Unmodelled("a property key whose text is not modelled"))
  }

  function CheckProperty(variant: Variant, p: Node, cx: Context): (r: Result<CheckedProperty>)
    requires p.PropertyN?
    decreases p, 1
  {
    var k :- if p.key.IdentN? then Ok(Routed(Lit(Str(p.key.name)), cx)) else Route(variant, p.key, cx);
    var key :- KeyText(k.v);
    var v :- Route(variant, p.body, k.cx);
    var after :- CheckDecorators(variant, p, 0, v.cx);
    Ok(CheckedProperty(key, v.v, after))
  }

  /** Each decorator must name a truthy entry of the combinator table; its arguments are routed. */
  function CheckDecorators(variant: Variant, p: Node, j: nat, cx: Context): (r: Result<Context>)
    requires p.PropertyN?
    ensures j < |p.decorators| && p.decorators[j].DecoratorN? && !InTable(p.decorators[j].name) ==>
              r == Fail(Thrown("not implemented decorate:" + p.decorators[j].name))
    decreases p, 0, |p.decorators| - j
  {
    if j >= |p.decorators| then Ok(cx)
    else
      var d := p.decorators[j];
      if !d.DecoratorN? then CheckDecorators(variant, p, j + 1, cx)
      else if !InTable(d.name) || !TruthyTy(Builtin(d.name).value) then
        Fail(Thrown("not implemented decorate:" + d.name))
      else
        var after :- RouteKids(variant, d, 0, false, cx);
        CheckDecorators(variant, p, j + 1, after)
  }

  /** The match handler: the scrutinee, then the guard and body of each case; the result is null. */
  function CheckMatch(variant: Variant, n: Node, cx: Context): (r: Result<Routed>)
    requires n.MatchN?
    decreases n, 1
  {
    var t :- Route(variant, n.test, cx);
    var after :- CheckCases(variant, n, 0, t.cx);
    Ok(Routed(Lit(Null), after))
  }

  function CheckCases(variant: Variant, n: Node, i: nat, cx: Context): (r: Result<Context>)
    requires n.MatchN?
    decreases n, 0, |n.cases| - i
  {
    if i >= |n.cases| then Ok(cx)
    else if !n.cases[i].CaseN? then CheckCases(variant, n, i + 1, cx)
    else
      assert n.cases[i] in n.cases;
      var t :- Route(variant, n.cases[i].test, cx);
      var b :- Route(variant, n.cases[i].body, t.cx);
      CheckCases(variant, n, i + 1, b.cx)
  }

  /** The call handler: a function callee has its arguments routed; any other callee throws. */
  function CheckCall(variant: Variant, n: Node, cx: Context): (r: Result<Routed>)
    requires n.CallN?
    decreases n, 1
  {
    var c :- Route(variant, n.callee, cx);
    if IsFunction(c.v) then
      var after :- RouteKids(variant, n, 0, false, c.cx);
      Ok(Routed(Lit(Null), after))
    else match TextOf(c.v)
      case Some(s) => Fail(Thrown(s + " is not function"))
      case None => Fail(Unmodelled("the text of a called value"))
  }

  // ---------------------------------------------------------------------------
  //  The entry point
  // ---------------------------------------------------------------------------

  /** `table.start`: every element node in order; other top-level nodes are skipped. */
  function Start(variant: Variant, nodes: seq<Node>, cx: Context): (r: Result<Context>)
    decreases |nodes|
  {
    if nodes == [] then Ok(cx)
    else if !nodes[0].ElementN? then Start(variant, nodes[1..], cx)
    else
      var e :- Route(variant, nodes[0], cx);
      Start(variant, nodes[1..], e.cx)
  }

  /** `_.set(declares, item.path, item.value)` for each declaration in order. */
  function ApplyDeclares(d: Ty, ds: seq<Declared>, next: Id): (r: Result<Ty>)
    ensures r.Ok? && d.Shape? ==> r.value.Shape? && r.value.id == d.id
    decreases |ds|
  {
    if ds == [] then Ok(d)
    else
      var s :- SetPath(d, ds[0].path, ds[0].value, next);
      ApplyDeclares(s.0, ds[1..], s.1)
  }

  /** Every used reference in order must be present; the first missing one throws. */
  function CheckUses(d: Ty, us: seq<Use>): (r: Result<()>)
    decreases |us|
  {
    if us == [] then Ok(())
    else
      var has :- HasPath(d, UsePath(us[0].ref));
      if !has then Fail(Thrown("not implemented type: " + UseText(us[0].ref)))
      else CheckUses(d, us[1..])
  }

  /** The default export: check the program, write its declarations into `declares`, then check every use. */
  function CheckProgram(variant: Variant, nodes: seq<Node>, declares: Ty): (r: Result<()>)
  {
    var cx :- Start(variant, nodes, Context([], []));
    var d :- ApplyDeclares(declares, cx.declares, 0);
    CheckUses(d, cx.using)
  }
}
