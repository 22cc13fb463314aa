/*******************************************************************************
 *  Evaluation of deferred expressions against the root datum: the functions
 *  the compiler marks as "packed" (src/grammar/transform/ast-lier.ts), applied
 *  by `self` and `match` (src/types.ts).
 *******************************************************************************/

module Expressions {
  import opened Outcomes
  import opened Values
  import opened Types
  import Operators

  /** `self => …` applied to the root datum. */
  function Eval(h: Heap, root: Value, e: Expr): (r: Result<Value>)
    ensures e.RootE? ==> r == Ok(root)
    ensures e.Const? ==> r == Ok(e.v)
    ensures e.Opaque? ==> r.Fail? && r.failure.Unmodelled?
  {
    match e
    case RootE => Ok(root)
    case Const(v) => Ok(v)
    case Opaque(what) => Fail(Unmodelled(what))
    case Member(base, k) =>
      var v :- Eval(h, root, base);
      if v.Undef? || v.Null? then
        Fail(Thrown("Cannot read property '" + k + "' of " + (if v.Undef? then "undefined" else "null")))
      else Ok(Get(h, v, k))
    case UnaryE(op, a) =>
      var v :- Eval(h, root, a);
      Operators.Unary(op, v)
    case BinaryE(op, l, r) =>
      var a :- Eval(h, root, l);
      if op == "&&" && !Truthy(a) then Ok(a)
      else if op == "||" && Truthy(a) then Ok(a)
      else
        var b :- Eval(h, root, r);
        Operators.Binary(op, a, b)
  }

  /** A member chain `self.k1.k2…` as the compiler builds it. */
  function PathExpr(keys: seq<string>): Expr
    decreases |keys|
  {
    if keys == [] then RootE else Member(PathExpr(keys[..|keys| - 1]), keys[|keys| - 1])
  }

  /** Reading a path through the data, failing on the first step that meets null or undefined. */
  function ReadPath(h: Heap, v: Value, keys: seq<string>): Result<Value>
    decreases |keys|
  {
    if keys == [] then Ok(v)
    else
      var w :- ReadPath(h, v, keys[..|keys| - 1]);
      var k := keys[|keys| - 1];
      if w.Undef? || w.Null? then
        Fail(Thrown("Cannot read property '" + k + "' of " + (if w.Undef? then "undefined" else "null")))
      else Ok(Get(h, w, k))
  }

  /** A packed member access reads exactly the path it names from the root datum. */
  lemma {:induction false} EvalPath(h: Heap, root: Value, keys: seq<string>)
    ensures Eval(h, root, PathExpr(keys)) == ReadPath(h, root, keys)
    decreases |keys|
  {
    if keys != [] {
      EvalPath(h, root, keys[..|keys| - 1]);
    }
  }

  /** `&&` evaluates its right operand only when the left one is truthy. */
  lemma AndShortCircuits(h: Heap, root: Value, l: Expr, r: Expr)
    requires Eval(h, root, l).Ok? && !Truthy(Eval(h, root, l).value)
    ensures Eval(h, root, BinaryE("&&", l, r)) == Eval(h, root, l)
  {
  }
}
