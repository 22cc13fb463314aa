/*******************************************************************************
 *  Values the lowering compiler (src/grammar/transform/ast-lier.ts) and the
 *  reference checker (src/grammar/check.ts) compute while they walk the
 *  parsed program: property keys, property reads, operators folded at
 *  compile time, and the declaration table written with lodash `_.set` and
 *  queried with `_.has`.
 *******************************************************************************/

module CompileTime {
  import opened Outcomes
  import opened Values
  import opened Types
  import Operators

  // ---------------------------------------------------------------------------
  //  Primitive values among compiled values
  // ---------------------------------------------------------------------------

  /** The primitive a compiled value stands for: undefined, or a literal. */
  function PrimOf(t: Ty): Option<Value> {
    match t
    case Void => Some(Undef)
    case Lit(v) => if IsPrimitive(v) then Some(v) else None
    case _ => None
  }

  /** A primitive computed at compile time, as a compiled value. */
  function ValueTy(v: Value): (t: Ty)
    requires IsPrimitive(v)
    ensures PrimOf(t) == Some(v)
    ensures t.Void? <==> v.Undef?
  {
    if v.Undef? then Void else Lit(v)
  }

  /** `String(t)` for the compiled values whose text the model knows. */
  function TextOf(t: Ty): (r: Option<string>)
    ensures PrimOf(t).Some? ==> r == ToText(PrimOf(t).value)
    ensures t.Pattern? ==> r == Some("/" + t.re.source + "/" + t.re.flags)
    ensures IsFunction(t) || t.List? ==> r.None?
  {
    match t
    case Void => Some("undefined")
    case Lit(v) => if IsPrimitive(v) then ToText(v) else None
    case Pattern(re) => ToText(Re(re))
    case Shape(_, _) => Some("[object Object]")
    case Foreign(what) => if what == "Infinity" then Some("Infinity") else None
    case _ => None
  }

  /** The texts of a list of compiled values used as property keys. */
  function Texts(ts: seq<Ty>): (r: Result<seq<string>>)
    ensures r.Ok? <==> forall i :: 0 <= i < |ts| ==> TextOf(ts[i]).Some?
    ensures r.Ok? ==> |r.value| == |ts| && forall i :: 0 <= i < |ts| ==> r.value[i] == TextOf(ts[i]).value
    ensures r.Fail? ==> r.failure.Unmodelled?
  {
    if ts == [] then Ok([])
    else
      match TextOf(ts[0])
      case None => Fail(Unmodelled("a property key whose text is not modelled"))
      case Some(k) =>
        var rest :- Texts(ts[1..]);
        Ok([k] + rest)
  }

  /**
   * The texts of the same values where an array prints them (`join`, or
   * `String` of the array): null and undefined print as empty text, every
   * other value as its own text.
   */
  function JoinedTexts(ts: seq<Ty>): (r: Result<seq<string>>)
    ensures r.Ok? <==> Texts(ts).Ok?
    ensures r.Ok? ==> |r.value| == |ts|
    ensures r.Ok? ==> forall i :: 0 <= i < |ts| ==>
              r.value[i] == if ts[i].Void? || ts[i] == Lit(Null) then "" else Texts(ts).value[i]
  {
    if ts == [] then Ok([])
    else
      var rest :- JoinedTexts(ts[1..]);
      if ts[0].Void? || ts[0] == Lit(Null) then Ok([""] + rest)
      else
        match TextOf(ts[0])
        case None => Fail(Unmodelled("a property key whose text is not modelled"))
        case Some(k) => Ok([k] + rest)
  }

  // ---------------------------------------------------------------------------
  //  Property reads and operators at compile time
  // ---------------------------------------------------------------------------

  /** `t[k]` on a compiled value; reading from null or undefined throws. */
  function ReadProperty(t: Ty, k: string): (r: Result<Ty>)
    ensures t.Void? ==> r == Fail(Thrown("Cannot read property '" + k + "' of undefined"))
    ensures t == Lit(Null) ==> r == Fail(Thrown("Cannot read property '" + k + "' of null"))
    ensures t.Shape? ==> r == Ok(if EntryLookup(t.entries, k).Some? then EntryLookup(t.entries, k).value else Void)
    ensures r.Ok? ==> Child(t, k).Some? || r.value == Void
  {
    if t.Void? then Fail(Thrown("Cannot read property '" + k + "' of undefined"))
    else if t == Lit(Null) then Fail(Thrown("Cannot read property '" + k + "' of null"))
    else if t.Shape? || t.List? || (t.Lit? && t.v.Str?) then Ok(match Child(t, k) case Some(c) => c case None => Void)
    else Fail(Unmodelled("a property of a function, a number, a boolean or a regular expression"))
  }

  /** `ret = ret[item]` for each key in turn. */
  function PropertyPath(t: Ty, keys: seq<string>): (r: Result<Ty>)
    ensures keys == [] ==> r == Ok(t)
    decreases |keys|
  {
    if keys == [] then Ok(t)
    else
      var c :- ReadProperty(t, keys[0]);
      PropertyPath(c, keys[1..])
  }

  /** The string literals `k1, k2, …`: the values of the path steps of `x.k1.k2…`. */
  function StrLits(ks: seq<string>): (ts: seq<Ty>)
    ensures |ts| == |ks| && forall i :: 0 <= i < |ks| ==> ts[i] == Lit(Str(ks[i]))
  {
    if ks == [] then [] else [Lit(Str(ks[0]))] + StrLits(ks[1..])
  }

  lemma StrLitsStep(ks: seq<string>, i: nat, acc: seq<Ty>)
    requires i < |ks|
    ensures (acc + [Lit(Str(ks[i]))]) + StrLits(ks[i + 1..]) == acc + StrLits(ks[i..])
  {
    assert ks[i..][1..] == ks[i + 1..];
  }

  lemma StrLitsTexts(ks: seq<string>)
    ensures Texts(StrLits(ks)) == Ok(ks)
    ensures JoinedTexts(StrLits(ks)) == Ok(ks)
  {
    var r := Texts(StrLits(ks));
    assert r.Ok?;
    assert r.value == ks;
    var j := JoinedTexts(StrLits(ks));
    assert j.value == ks;
  }

  /** The texts of a single value: its own text for a lookup, empty text in a joined path when it is null or undefined. */
  lemma OneTexts(t: Ty)
    requires TextOf(t).Some?
    ensures Texts([t]) == Ok([TextOf(t).value])
    ensures JoinedTexts([t]) == Ok([if t.Void? || t == Lit(Null) then "" else TextOf(t).value])
  {
    assert [t][1..] == [];
    assert Texts([]) == Ok([]);
    assert [TextOf(t).value] + [] == [TextOf(t).value];
    var j := JoinedTexts([t]);
    assert j.Ok? && |j.value| == 1;
    assert j.value == [j.value[0]];
  }

  /** `left op right` on two compiled values neither of which is deferred. */
  function Compute(op: string, l: Ty, r: Ty): (res: Result<Ty>)
    ensures op == "&&" ==> res == Ok(if TruthyTy(l) then r else l)
    ensures op == "||" ==> res == Ok(if TruthyTy(l) then l else r)
    ensures op != "&&" && op != "||" && PrimOf(l).Some? && PrimOf(r).Some? ==>
              (res.Ok? <==> Operators.Binary(op, PrimOf(l).value, PrimOf(r).value).Ok?)
    ensures op != "&&" && op != "||" && res.Ok? ==>
              (PrimOf(l).Some? && PrimOf(r).Some? &&
               PrimOf(res.value) == Some(Operators.Binary(op, PrimOf(l).value, PrimOf(r).value).value))
  {
    if op == "&&" then Ok(if TruthyTy(l) then r else l)
    else if op == "||" then Ok(if TruthyTy(l) then l else r)
    else match (PrimOf(l), PrimOf(r))
      case (Some(a), Some(b)) =>
        var v :- Operators.Binary(op, a, b);
        if IsPrimitive(v) then Ok(ValueTy(v)) else Fail(Unmodelled("an operator result that is an object"))
      case _ => Fail(Unmodelled("an operator applied to a compiled type"))
  }

  /** `op t` on a compiled primitive (undefined for an unknown operator). */
  function ComputeUnary(op: string, t: Ty): (res: Result<Ty>)
    ensures PrimOf(t).Some? && op == "!" ==> res == Ok(Lit(Bool(!Truthy(PrimOf(t).value))))
    ensures PrimOf(t).Some? && op !in {"!", "~", "+", "-"} ==> res == Ok(Void)
    ensures PrimOf(t).None? ==> res.Fail? && res.failure.Unmodelled?
  {
    match PrimOf(t)
    case None => Fail(Unmodelled("an operator applied to a compiled type"))
    case Some(a) =>
      var v :- Operators.Unary(op, a);
      if IsPrimitive(v) then Ok(ValueTy(v)) else Fail(Unmodelled("an operator result that is an object"))
  }

  /**
   * Folding constants at compile time agrees with JavaScript's operators on
   * integers: arithmetic, comparison and strict equality give the integer
   * results, and `&&` / `||` keep the left operand exactly when it decides.
   */
  lemma ComputeOnIntegers(x: int, y: int, t: Ty)
    ensures Compute("+", Lit(Num(x)), Lit(Num(y))) == Ok(Lit(Num(x + y)))
    ensures Compute("-", Lit(Num(x)), Lit(Num(y))) == Ok(Lit(Num(x - y)))
    ensures Compute("*", Lit(Num(x)), Lit(Num(y))) == Ok(Lit(Num(x * y)))
    ensures Compute("<", Lit(Num(x)), Lit(Num(y))) == Ok(Lit(Bool(x < y)))
    ensures Compute(">=", Lit(Num(x)), Lit(Num(y))) == Ok(Lit(Bool(x >= y)))
    ensures Compute("===", Lit(Num(x)), Lit(Num(y))) == Ok(Lit(Bool(x == y)))
    ensures Compute("&&", Lit(Num(x)), t) == Ok(if x == 0 then Lit(Num(x)) else t)
    ensures Compute("||", Lit(Num(x)), t) == Ok(if x == 0 then t else Lit(Num(x)))
  {
    Operators.ArithmeticOnIntegers(x, y);
    Operators.RelationalOnIntegers(x, y);
    Operators.StrictEqualityOnValues(Num(x), Num(y));
  }

  /** Folding `+` on two string constants concatenates them; on a deferred operand nothing is folded. */
  lemma ComputeOnStrings(s: string, u: string, id: Id)
    ensures Compute("+", Lit(Str(s)), Lit(Str(u))) == Ok(Lit(Str(s + u)))
    ensures Compute("+", Lit(Str(s)), Shape(id, [])).Fail?
  {
    Operators.PlusConcatenates(s, u, 0);
  }

  /** Unary operators on an integer constant fold to JavaScript's results. */
  lemma ComputeUnaryOnIntegers(x: int)
    ensures ComputeUnary("-", Lit(Num(x))) == Ok(Lit(Num(-x)))
    ensures ComputeUnary("~", Lit(Num(x))) == Ok(Lit(Num(-Operators.ToInt32(x) - 1)))
    ensures ComputeUnary("!", Lit(Num(x))) == Ok(Lit(Bool(x == 0)))
  {
    Operators.UnaryOnIntegers(x, false);
  }

  // ---------------------------------------------------------------------------
  //  The declaration table: `_.set` and `_.has`
  // ---------------------------------------------------------------------------

  /** `o[k] = t` on the entries of a plain object: an existing key keeps its place. */
  function PutEntry(es: seq<Entry>, k: string, t: Ty): (r: seq<Entry>)
    ensures EntryLookup(r, k) == Some(t)
    ensures forall k' :: k' != k ==> EntryLookup(r, k') == EntryLookup(es, k')
    ensures EntryLookup(es, k).None? ==> r == es + [Entry(k, t)]
    ensures EntryLookup(es, k).Some? ==> |r| == |es|
  {
    if es == [] then [Entry(k, t)]
    else if es[0].key == k then [Entry(k, t)] + es[1..]
    else [es[0]] + PutEntry(es[1..], k, t)
  }

  /** Arrays, plain objects, functions and regular expressions: the values `_.set` walks into or refuses. */
  predicate IsObjectTy(t: Ty) {
    IsObjectLikeTy(t) || IsFunction(t)
  }

  /**
   * `_.set(d, path, v)`.  Missing or primitive steps become new plain objects,
   * which take identities from `next` on; the new `next` is returned.  A path
   * into an array, a function or a regular expression, or one that would
   * create an array (the next key is an index), leaves the model.
   */
  function SetPath(d: Ty, path: seq<string>, v: Ty, next: Id): (r: Result<(Ty, Id)>)
    ensures r.Ok? ==> r.value.1 >= next
    ensures r.Ok? && d.Shape? ==> r.value.0.Shape? && r.value.0.id == d.id
    ensures r.Ok? && d.Shape? && path != [] ==>
              forall k :: k != path[0] ==> EntryLookup(r.value.0.entries, k) == EntryLookup(d.entries, k)
    ensures PrimOf(d).Some? || path == [] ==> r == Ok((d, next))
    decreases |path|
  {
    if path == [] then Ok((d, next))
    else match d
      case Shape(id, es) =>
        var k := path[0];
        if |path| == 1 then Ok((Shape(id, PutEntry(es, k, v)), next))
        else
          var start :- StepInto(EntryLookup(es, k), path[1], next);
          var child :- SetPath(start.0, path[1..], v, start.1);
          Ok((Shape(id, PutEntry(es, k, child.0)), child.1))
      case _ =>
        if PrimOf(d).Some? then Ok((d, next))
        else Fail(Unmodelled("a declaration path through an array, a function or a regular expression"))
  }

  /** The object `_.set` descends into for one intermediate step. */
  function StepInto(existing: Option<Ty>, nextKey: string, next: Id): (r: Result<(Ty, Id)>)
    ensures r.Ok? ==> r.value.0.Shape? && r.value.1 >= next
    ensures existing.Some? && existing.value.Shape? ==> r == Ok((existing.value, next))
    ensures (existing.None? || PrimOf(existing.value).Some?) && IndexOf(nextKey).None? ==>
              r == Ok((Shape(next, []), next + 1))
  {
    var refused: Result<(Ty, Id)> :=
      Fail(Unmodelled("a declaration path through an array, a function or a regular expression"));
    if existing.Some? && existing.value.Shape? then Ok((existing.value, next))
    else if existing.Some? && IsObjectTy(existing.value) then refused
    else if existing.Some? && PrimOf(existing.value).None? then
      var unknown: Result<(Ty, Id)> := Fail(Unmodelled("a declaration path through a value the model does not represent"));
      unknown
    else if IndexOf(nextKey).Some? then
      var makesArray: Result<(Ty, Id)> := Fail(Unmodelled("an array created by a declaration path"));
      makesArray
    else Ok((Shape(next, []), next + 1))
  }

  /** `Object.prototype.hasOwnProperty.call(t, k)`, when the model knows the own keys of `t`. */
  function OwnKey(t: Ty, k: string): (r: Result<bool>)
    ensures t.Shape? ==> r == Ok(EntryLookup(t.entries, k).Some?)
    ensures PrimOf(t).Some? && !t.Lit? ==> r == Ok(false)
    ensures r == Ok(true) ==> Child(t, k).Some?
  {
    match t
    case Shape(_, es) => Ok(EntryLookup(es, k).Some?)
    case List(_, _) => Ok(Child(t, k).Some?)
    case Lit(Str(_)) => Ok(Child(t, k).Some?)
    case Void => Ok(false)
    case Lit(v) => if IsPrimitive(v) then Ok(false) else Fail(Unmodelled("the own keys of an object value"))
    case _ => Fail(Unmodelled("the own keys of a function or a regular expression"))
  }

  /**
   * `_.has(t, keys)`: every step is an own property of a value that is
   * neither null nor undefined.  An empty path is never present.
   */
  function HasPath(t: Ty, keys: seq<string>): (r: Result<bool>)
    ensures keys == [] ==> r == Ok(false)
    ensures keys != [] && (t.Void? || t == Lit(Null)) ==> r == Ok(false)
    decreases |keys|
  {
    if keys == [] || t.Void? || t == Lit(Null) then Ok(false)
    else
      var own :- OwnKey(t, keys[0]);
      if !own then Ok(false)
      else if |keys| == 1 then Ok(true)
      else HasPath(Child(t, keys[0]).value, keys[1..])
  }

  // ---------------------------------------------------------------------------
  //  Properties of the declaration table
  // ---------------------------------------------------------------------------

  /** Setting a path then reading it back gives the value set (`_.get` reports undefined as absent). */
  lemma {:induction false} SetThenGet(d: Ty, path: seq<string>, v: Ty, next: Id)
    requires d.Shape? && path != []
    requires SetPath(d, path, v, next).Ok?
    ensures GetPath(SetPath(d, path, v, next).value.0, path) == (if v == Void then None else Some(v))
    decreases |path|
  {
    var k := path[0];
    if |path| > 1 {
      var start := StepInto(EntryLookup(d.entries, k), path[1], next).value;
      var child := SetPath(start.0, path[1..], v, start.1).value;
      SetThenGet(start.0, path[1..], v, start.1);
      var out := SetPath(d, path, v, next).value.0;
      assert out == Shape(d.id, PutEntry(d.entries, k, child.0));
      GetPathThroughShapes(d.id, PutEntry(d.entries, k, child.0), k, path[1..]);
      assert path == [k] + path[1..];
    } else {
      assert path == [k] + [];
      GetPathThroughShapes(d.id, PutEntry(d.entries, k, v), k, []);
    }
  }

  /** Setting a path makes `_.has` find it, whatever value was set (undefined included). */
  lemma {:induction false} SetThenHas(d: Ty, path: seq<string>, v: Ty, next: Id)
    requires d.Shape? && path != []
    requires SetPath(d, path, v, next).Ok?
    ensures HasPath(SetPath(d, path, v, next).value.0, path) == Ok(true)
    decreases |path|
  {
    var k := path[0];
    if |path| > 1 {
      var start := StepInto(EntryLookup(d.entries, k), path[1], next).value;
      var child := SetPath(start.0, path[1..], v, start.1).value;
      SetThenHas(start.0, path[1..], v, start.1);
      var out := SetPath(d, path, v, next).value.0;
      assert out == Shape(d.id, PutEntry(d.entries, k, child.0));
      assert Child(out, k) == Some(child.0);
    }
  }
}
