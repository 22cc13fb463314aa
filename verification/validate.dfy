/*******************************************************************************
 *  The validator (src/validate.ts) together with the validate half of every
 *  combinator (src/types.ts).
 *
 *  One run threads a `Root` through the walk: errors are appended to it, the
 *  visited set grows on the way down into arrays and objects and is restored
 *  on the way back.  `fuel` bounds the depth of the recursion (the JavaScript
 *  stack); running out of it is `StackExhausted`.  Thrown exceptions end the
 *  run: none of the combinators catches one.
 *******************************************************************************/

module Validation {
  import opened Outcomes
  import opened Values
  import opened Types
  import opened Interfaces
  import Utils
  import Equality
  import Expressions

  /**
   * The regular expression engine, which the model does not implement: whether
   * a compiled expression matches a text, and whether a body and flags
   * compile.
   */
  datatype RegexEngine = RegexEngine(test: (Regex, string) -> bool, compiles: (string, string) -> bool)

  /** What a run reads but never changes: the data heap and the regex engine. */
  datatype Env = Env(heap: Heap, rx: RegexEngine)

  /** A combinator's answer: the state after it ran and the message it returned, if any. */
  datatype Applied = Applied(root: Root, message: Option<seq<Fragment>>)

  /** The state of the key loop of `validateObject`. */
  datatype Scan = Scan(root: Root, matched: set<string>, rest: Ty)

  /** How many members of a `oneOf` accepted, and the error list of the last attempt. */
  datatype Tally = Tally(count: nat, last: seq<Issue>)

  // ---------------------------------------------------------------------------
  //  The frame of one walk
  // ---------------------------------------------------------------------------

  /** Every error record of the list lies at `path` or below it. */
  predicate Under(path: seq<string>, issues: seq<Issue>) {
    forall i :: 0 <= i < |issues| && issues[i].Record? ==> path <= issues[i].err.path
  }

  /** Two states of the same run that differ at most in their error lists. */
  predicate SameRun(a: Root, b: Root) {
    a.data == b.data && a.schema == b.schema && a.declares == b.declares && a.isMock == b.isMock
    && a.visited == b.visited && a.cycleDeep == b.cycleDeep
  }

  /**
   * What a walk at `path` may do to the state: only append errors, each
   * record of them at `path` or below, and leave everything else as it found
   * it (the visited set included).
   */
  predicate Kept(before: Root, after: Root, path: seq<string>) {
    SameRun(before, after) && before.errors <= after.errors && Under(path, after.errors[|before.errors|..])
  }

  lemma UnderConcat(path: seq<string>, a: seq<Issue>, b: seq<Issue>)
    requires Under(path, a) && Under(path, b)
    ensures Under(path, a + b)
  {
    forall i | 0 <= i < |a + b| && (a + b)[i].Record?
      ensures path <= (a + b)[i].err.path
    {
      if i >= |a| {
        assert (a + b)[i] == b[i - |a|];
      }
    }
  }

  lemma UnderDeeper(path: seq<string>, k: string, issues: seq<Issue>)
    requires Under(path + [k], issues)
    ensures Under(path, issues)
  {
    forall i | 0 <= i < |issues| && issues[i].Record?
      ensures path <= issues[i].err.path
    {
      assert path + [k] <= issues[i].err.path;
      assert issues[i].err.path[..|path|] == (path + [k])[..|path|] == path;
    }
  }

  lemma KeptDeeper(before: Root, after: Root, path: seq<string>, k: string)
    requires Kept(before, after, path + [k])
    ensures Kept(before, after, path)
  {
    UnderDeeper(path, k, after.errors[|before.errors|..]);
  }

  lemma KeptTrans(a: Root, b: Root, c: Root, path: seq<string>)
    requires Kept(a, b, path) && Kept(b, c, path)
    ensures Kept(a, c, path)
  {
    var x := b.errors[|a.errors|..];
    var y := c.errors[|b.errors|..];
    assert b.errors == a.errors + x;
    assert c.errors == b.errors + y;
    assert c.errors[|a.errors|..] == x + y;
    UnderConcat(path, x, y);
  }

  /** `root.errors.push(new LierError(path, message))`. */
  function Push(root: Root, path: seq<string>, message: seq<Fragment>): (r: Root)
    ensures Kept(root, r, path)
    ensures |r.errors| == |root.errors| + 1 && r.errors[|root.errors|] == Record(LierError(path, message))
  {
    var r := root.(errors := root.errors + [Record(LierError(path, message))]);
    assert r.errors[|root.errors|..] == [Record(LierError(path, message))];
    r
  }

  /** Replacing the error list by one that extends it with errors at `path`. */
  lemma KeptExtend(root: Root, path: seq<string>, extra: seq<Issue>)
    requires Under(path, extra)
    ensures Kept(root, root.(errors := root.errors + extra), path)
  {
    assert (root.errors + extra)[|root.errors|..] == extra;
  }

  // ---------------------------------------------------------------------------
  //  Leaves: regular expressions and explicit values
  // ---------------------------------------------------------------------------

  /** The text `RegExp.prototype.test` sees for a string or a number. */
  function RegexText(d: Value): (r: Option<string>)
    ensures r.Some? <==> d.Str? || d.Num?
  {
    match d
    case Str(s) => Some(s)
    case Num(n) => Some(NumberText(n))
    case _ => None
  }

  /** `validateRegex`: a regular expression datum must be the same expression; anything else must match. */
  function ValidateRegex(env: Env, d: Value, re: Regex, path: seq<string>, root: Root): (r: Root)
    ensures Kept(root, r, path)
    ensures r.errors == root.errors <==>
              if d.Re? then d.re == re else RegexText(d).Some? && env.rx.test(re, RegexText(d).value)
    ensures r.errors != root.errors ==> |r.errors| == |root.errors| + 1
  {
    if d.Re? then
      if d.re != re then Push(root, path, [Datum(d), Text("is not"), TypeOf(Pattern(re))]) else root
    else
      match RegexText(d)
      case None => Push(root, path, [Datum(d), Text("doesn't match regex"), TypeOf(Pattern(re))])
      case Some(s) =>
        if !env.rx.test(re, s) then Push(root, path, [Datum(d), Text("doesn't match regex"), TypeOf(Pattern(re))])
        else root
  }

  /** `validateExplicitValue`: the datum must deep-equal the value. */
  function ValidateExplicitValue(h: Heap, d: Value, t: Ty, path: seq<string>, root: Root): (r: Root)
    ensures Kept(root, r, path)
    ensures r.errors == root.errors <==> Equality.DeepEqualTy(h, d, t)
    ensures r.errors != root.errors ==> |r.errors| == |root.errors| + 1
  {
    if !Equality.DeepEqualTy(h, d, t) then Push(root, path, [Datum(d), Text("is not"), TypeOf(t)]) else root
  }

  // ---------------------------------------------------------------------------
  //  The scalar combinators
  // ---------------------------------------------------------------------------

  /** The integer Big.js reads from a digit text; it refuses a leading `+`. */
  function DigitTextValue(s: string): (r: Result<int>)
    requires Utils.IsSignedDigits(s)
    ensures s[0] != '+' ==> r == Ok(Utils.SignedValue(s))
    ensures s[0] == '+' ==> r.Fail?
  {
    if s[0] == '+' then Fail(Unmodelled("a '+'-signed digit string handed to Big.js"))
    else Ok(Utils.SignedValue(s))
  }

  /** The integer a datum that passes `isInteger` stands for: `Big(v)` reads `String(v)`. */
  function IntegerValue(h: Heap, d: Value): (r: Result<int>)
    requires Utils.IsIntegerIn(h, d) == Ok(true)
    ensures d.Num? ==> r == Ok(d.n)
    ensures d.Str? ==> r == DigitTextValue(d.s)
    ensures d.Ptr? ==> r == DigitTextValue(Utils.HeapText(h, d).value.value)
  {
    match d
    case Num(n) => Ok(n)
    case Str(s) => DigitTextValue(s)
    case Ptr(_) => DigitTextValue(Utils.HeapText(h, d).value.value)
    case _ => Ok(0)
  }

  /** The message of `int(bits)` and `uint(bits)`: an integer within `[lo, hi]`. */
  function IntMessage(h: Heap, d: Value, lo: int, hi: int, name: string): (r: Result<Option<seq<Fragment>>>)
    ensures Utils.IsIntegerIn(h, d) == Ok(false) ==> r == Ok(Some([Datum(d), Text("is not an integer")]))
    ensures Utils.IsIntegerIn(h, d).Fail? ==> r.Fail?
    ensures d.Num? ==> r.Ok? && (r.value.None? <==> lo <= d.n <= hi)
    ensures d.Num? && !(lo <= d.n <= hi) ==> r == Ok(Some([Text(NumberText(d.n)), Text("is out of range of"), Text(name)]))
  {
    var isInt :- Utils.IsIntegerIn(h, d);
    if !isInt then Ok(Some([Datum(d), Text("is not an integer")]))
    else
      var n :- IntegerValue(h, d);
      if hi < n || lo > n then Ok(Some([Text(NumberText(n)), Text("is out of range of"), Text(name)]))
      else Ok(None)
  }

  /** `float` and `double`: a number within the safe integer range. */
  function FloatMessage(d: Value, name: string): (r: Option<seq<Fragment>>)
    ensures r.None? <==> d.Num? && Utils.MIN_SAFE_INTEGER <= d.n <= Utils.MAX_SAFE_INTEGER
  {
    if !d.Num? || d.n < Utils.MIN_SAFE_INTEGER || d.n > Utils.MAX_SAFE_INTEGER then
      Some([Datum(d), Text("is not " + name)])
    else None
  }

  /** The length `range` measures: a number's value, a string's or an array's length. */
  function RangeMeasure(h: Heap, d: Value): (r: Option<int>)
    ensures d.Num? ==> r == Some(d.n)
    ensures d.Str? ==> r == Some(|d.s|)
    ensures IsArray(h, d) ==> r == Some(|h[d.addr].items|)
    ensures r.None? <==> !d.Num? && !d.Str? && !IsArray(h, d)
  {
    if d.Num? then Some(d.n)
    else if d.Str? then Some(|d.s|)
    else if IsArray(h, d) then Some(|h[d.addr].items|)
    else None
  }

  /** The message `range` returns for a measure outside its bounds. */
  function RangeText(lo: int, hi: int): string {
    "is not in range(" + NumberText(lo) + ", " + NumberText(hi) + ")"
  }

  /** The type `ref(path)` stands for: the root type for an empty path, else the type at the path. */
  function ResolveRef(root: Root, target: Option<seq<string>>): (r: Result<Ty>)
    ensures target.None? ==> r == Ok(root.schema)
    ensures target.Some? && JoinComma(target.value) != "" ==> r == GetError(root.schema, target.value)
  {
    if target.None? || JoinComma(target.value) == "" then Ok(root.schema)
    else GetError(root.schema, target.value)
  }

  /** The message of a `oneOf` that did not match exactly one member. */
  function OneOfRecord(path: seq<string>, d: Value, ts: seq<Ty>, count: nat): Issue {
    Record(LierError(path, [Datum(d), Text("should match one and only one of"), TypeList(ts), Text("but matches"), Count(count)]))
  }

  /**
   * The errors a `oneOf` leaves: the caller's errors, plus its own record
   * unless exactly one member matched.
   */
  function OneOfErrors(saved: seq<Issue>, path: seq<string>, d: Value, ts: seq<Ty>, count: nat): (r: seq<Issue>)
    ensures saved <= r
    ensures r == saved <==> count == 1
  {
    if count != 1 then saved + [OneOfRecord(path, d, ts, count)] else saved
  }

  /**
   * The errors `oneOf` leaves as written: when the count is not one, the
   * record is pushed onto the error list of the LAST attempt, which replaced
   * the caller's list.
   */
  function OneOfErrorsAsWritten(saved: seq<Issue>, path: seq<string>, d: Value, ts: seq<Ty>, tally: Tally)
    : (r: seq<Issue>)
    ensures tally.count == 1 ==> r == saved
    ensures tally.count != 1 ==> r == tally.last + [OneOfRecord(path, d, ts, tally.count)]
  {
    if tally.count != 1 then tally.last + [OneOfRecord(path, d, ts, tally.count)] else saved
  }

  /** The bare fragments `not` concatenates onto the error list when its member matches. */
  function NotFragments(d: Value, t: Ty): seq<Issue> {
    [Loose(Datum(d)), Loose(Text("should not match type")), Loose(TypeOf(t))]
  }

  // ---------------------------------------------------------------------------
  //  The walk
  // ---------------------------------------------------------------------------

  /** `walk(data, type, path, root)`. */
  function Walk(fuel: nat, env: Env, d: Value, t: Ty, path: seq<string>, root: Root): (r: Result<Root>)
    ensures r.Ok? ==> Kept(root, r.value, path)
    decreases fuel, 0
  {
    if fuel == 0 then Fail(StackExhausted)
    else
      match t
      case Pattern(re) => Ok(ValidateRegex(env, d, re, path, root))
      case Fn(id, c) =>
        var a :- Apply(fuel - 1, env, d, id, c, path, root);
        if a.message.Some? then
          var r := Push(a.root, path, a.message.value);
          KeptTrans(root, a.root, r, path);
          Ok(r)
        else Ok(a.root)
      case Packed(_, _) => Fail(Unmodelled("a packed expression called as a type"))
      case Factory(k) => Fail(Unmodelled("the factory " + FactoryName(k) + " called as a type"))
      case List(id, _) =>
        if DataId(d) in root.visited && TypeId(id) in root.visited then Ok(root)
        else
          var inner := root.(visited := root.visited + {DataId(d), TypeId(id)});
          var r :- ValidateArray(fuel - 1, env, d, t, path, inner);
          Ok(r.(visited := root.visited))
      case Shape(id, _) =>
        if DataId(d) in root.visited && TypeId(id) in root.visited then Ok(root)
        else
          var inner := root.(visited := root.visited + {DataId(d), TypeId(id)});
          var r :- ValidateObject(fuel - 1, env, d, t, path, inner);
          Ok(r.(visited := root.visited))
      case Void => Fail(Thrown("type must not be void"))
      case _ => Ok(ValidateExplicitValue(env.heap, d, t, path, root))
  }

  /** One independent attempt: validate against `t` starting from an empty error list; the errors it found. */
  function Attempt(fuel: nat, env: Env, d: Value, t: Ty, path: seq<string>, root: Root): (r: Result<seq<Issue>>)
    ensures r.Ok? ==> Under(path, r.value)
    ensures r.Ok? ==> Walk(fuel, env, d, t, path, root.(errors := [])).Ok?
    ensures r.Ok? ==> r.value == Walk(fuel, env, d, t, path, root.(errors := [])).value.errors
    ensures Walk(fuel, env, d, t, path, root.(errors := [])).Ok? ==> r.Ok?
    decreases fuel, 1
  {
    var w :- Walk(fuel, env, d, t, path, root.(errors := []));
    assert w.errors[0..] == w.errors;
    Ok(w.errors)
  }

  /** `validateArray`: the datum must be an array, and every element must match the one element type. */
  function ValidateArray(fuel: nat, env: Env, d: Value, t: Ty, path: seq<string>, root: Root): (r: Result<Root>)
    requires t.List?
    ensures r.Ok? ==> Kept(root, r.value, path)
    ensures !IsArray(env.heap, d) ==> r == Ok(Push(root, path, [Datum(d), Text("is not"), TypeOf(t)]))
    ensures IsArray(env.heap, d) && |t.elems| > 1 ==> r == Fail(Thrown("array type contains multiple types"))
    ensures IsArray(env.heap, d) && |t.elems| == 0 ==> r == Ok(root)
    decreases fuel, 3
  {
    if !IsArray(env.heap, d) then Ok(Push(root, path, [Datum(d), Text("is not"), TypeOf(t)]))
    else if |t.elems| > 1 then Fail(Thrown("array type contains multiple types"))
    else if |t.elems| == 0 then Ok(root)
    else ArrayItems(fuel, env, env.heap[d.addr].items, t.elems[0], 0, path, root)
  }

  /** The loop of `validateArray`: element `j` is walked at `path + [j]`. */
  function ArrayItems(fuel: nat, env: Env, items: seq<Value>, elem: Ty, j: nat, path: seq<string>, root: Root)
    : (r: Result<Root>)
    requires j <= |items|
    ensures r.Ok? ==> Kept(root, r.value, path)
    decreases fuel, 1, |items| - j
  {
    if j == |items| then Ok(root)
    else
      var r :- Walk(fuel, env, items[j], elem, path + [Decimal(j)], root);
      KeptDeeper(root, r, path, Decimal(j));
      var s :- ArrayItems(fuel, env, items, elem, j + 1, path, r);
      KeptTrans(root, r, s, path);
      Ok(s)
  }

  /** `validateObject`. */
  function ValidateObject(fuel: nat, env: Env, d: Value, t: Ty, path: seq<string>, root: Root): (r: Result<Root>)
    requires t.Shape?
    ensures r.Ok? ==> Kept(root, r.value, path)
    ensures EntryLookup(t.entries, EXPORT_KEY).Some? ==>
              r == Walk(fuel, env, d, EntryLookup(t.entries, EXPORT_KEY).value, path + [EXPORT_KEY], root)
    ensures EntryLookup(t.entries, EXPORT_KEY).None? && !IsObjectLike(d) ==>
              r == Ok(Push(root, path, [Datum(d), Text("is not"), TypeOf(t)]))
    decreases fuel, 3
  {
    if EntryLookup(t.entries, EXPORT_KEY).Some? then
      var r :- Walk(fuel, env, d, EntryLookup(t.entries, EXPORT_KEY).value, path + [EXPORT_KEY], root);
      KeptDeeper(root, r, path, EXPORT_KEY);
      Ok(r)
    else if !IsObjectLike(d) then Ok(Push(root, path, [Datum(d), Text("is not"), TypeOf(t)]))
    else
      var s :- ObjectLoop(fuel, env, d, t.entries, 0, path, Scan(root, {}, Void));
      if TruthyTy(s.rest) then
        var r :- RestLoop(fuel, env, d, s.rest, Keys(env.heap, d), 0, s.matched, path, s.root);
        KeptTrans(root, s.root, r, path);
        Ok(r)
      else Ok(s.root)
  }

  /** The loop over the keys of an object type: control keys, pattern keys and plain keys. */
  function ObjectLoop(fuel: nat, env: Env, d: Value, es: seq<Entry>, i: nat, path: seq<string>, s: Scan)
    : (r: Result<Scan>)
    requires i <= |es|
    ensures r.Ok? ==> Kept(s.root, r.value.root, path) && s.matched <= r.value.matched
    ensures r.Ok? && (forall m :: i <= m < |es| ==> es[m].key != REST_KEY) ==> r.value.rest == s.rest
    decreases fuel, 2, |es| - i
  {
    if i == |es| then Ok(s)
    else
      var k := es[i].key;
      if Utils.IsControlKey(k) then
        if k == REST_KEY then ObjectLoop(fuel, env, d, es, i + 1, path, s.(rest := es[i].t))
        else if k == DEFINITIONS_KEY then ObjectLoop(fuel, env, d, es, i + 1, path, s)
        else Fail(Thrown("unknown control key"))
      else if Utils.IsPatternKey(k) then
        match Utils.MatchKeyPattern(k)
        case None => Fail(Thrown("pattern key is not a valid RegExp"))
        case Some(kp) =>
          if !env.rx.compiles(kp.body, kp.flags) then Fail(Thrown("Invalid regular expression: /" + kp.body + "/"))
          else
            var s2 :- PatternLoop(fuel, env, d, es[i].t, Regex(kp.body, kp.flags), Keys(env.heap, d), 0, path, s);
            var s3 :- ObjectLoop(fuel, env, d, es, i + 1, path, s2);
            KeptTrans(s.root, s2.root, s3.root, path);
            Ok(s3)
      else
        var key := Utils.UnescapeControlKey(k);
        var r :- Walk(fuel, env, Get(env.heap, d, key), es[i].t, path + [key], s.root);
        KeptDeeper(s.root, r, path, key);
        var s3 :- ObjectLoop(fuel, env, d, es, i + 1, path, Scan(r, s.matched + {key}, s.rest));
        KeptTrans(s.root, r, s3.root, path);
        Ok(s3)
  }

  /** A pattern key: every key of the datum the pattern matches is marked and walked. */
  function PatternLoop(fuel: nat, env: Env, d: Value, ct: Ty, re: Regex, keys: seq<string>, j: nat,
                       path: seq<string>, s: Scan): (r: Result<Scan>)
    requires j <= |keys|
    ensures r.Ok? ==> Kept(s.root, r.value.root, path) && s.matched <= r.value.matched
    ensures r.Ok? ==> forall m :: j <= m < |keys| && env.rx.test(re, keys[m]) ==> keys[m] in r.value.matched
    ensures r.Ok? ==> forall k :: k in r.value.matched ==> k in s.matched || (k in keys[j..] && env.rx.test(re, k))
    ensures r.Ok? ==> r.value.rest == s.rest
    decreases fuel, 1, |keys| - j
  {
    if j == |keys| then Ok(s)
    else if env.rx.test(re, keys[j]) then
      var r :- Walk(fuel, env, Get(env.heap, d, keys[j]), ct, path + [keys[j]], s.root);
      KeptDeeper(s.root, r, path, keys[j]);
      var s3 :- PatternLoop(fuel, env, d, ct, re, keys, j + 1, path, Scan(r, s.matched + {keys[j]}, s.rest));
      KeptTrans(s.root, r, s3.root, path);
      Ok(s3)
    else PatternLoop(fuel, env, d, ct, re, keys, j + 1, path, s)
  }

  /** `$rest`: every key of the datum no other key matched is walked against the rest type. */
  function RestLoop(fuel: nat, env: Env, d: Value, rt: Ty, keys: seq<string>, j: nat, matched: set<string>,
                    path: seq<string>, root: Root): (r: Result<Root>)
    requires j <= |keys|
    ensures r.Ok? ==> Kept(root, r.value, path)
    ensures (forall m :: j <= m < |keys| ==> keys[m] in matched) ==> r == Ok(root)
    decreases fuel, 1, |keys| - j
  {
    if j == |keys| then Ok(root)
    else if keys[j] in matched then RestLoop(fuel, env, d, rt, keys, j + 1, matched, path, root)
    else
      var r :- Walk(fuel, env, Get(env.heap, d, keys[j]), rt, path + [keys[j]], root);
      KeptDeeper(root, r, path, keys[j]);
      var s :- RestLoop(fuel, env, d, rt, keys, j + 1, matched, path, r);
      KeptTrans(root, r, s, path);
      Ok(s)
  }

  // ---------------------------------------------------------------------------
  //  The combinators
  // ---------------------------------------------------------------------------

  /**
   * `self(fn)`: the datum must deep-equal the value of the expression on the
   * root datum; the message otherwise names both and the expression.
   */
  function SelfMessage(fuel: nat, h: Heap, d: Value, e: Expr, data: Value): (r: Result<Option<seq<Fragment>>>)
    ensures Expressions.Eval(h, data, e) == Ok(d) ==> r == Ok(None)
    ensures Expressions.Eval(h, data, e).Fail? ==> r == Fail(Expressions.Eval(h, data, e).failure)
    ensures r.Ok? ==> Expressions.Eval(h, data, e).Ok? &&
                      (r.value.None? <==> Equality.IsEqual(fuel, h, d, Expressions.Eval(h, data, e).value) == Ok(true))
  {
    var v :- Expressions.Eval(h, data, e);
    var same :- Equality.IsEqual(fuel, h, d, v);
    Ok(if same then None
       else Some([Datum(d), Text("should equal"), Datum(v), Text("which generated by expression"), Code(e)]))
  }

  /** The validate half of the combinator `c` (whose function object is `id`), called on `d` at `path`. */
  function Apply(fuel: nat, env: Env, d: Value, id: Id, c: Comb, path: seq<string>, root: Root): (r: Result<Applied>)
    ensures r.Ok? ==> Kept(root, r.value.root, path)
    decreases fuel, 4
  {
    var h := env.heap;
    match c
    case Self(e) =>
      var m :- SelfMessage(fuel, h, d, e, root.data);
      Ok(Applied(root, m))
    case BoolK => Ok(Applied(root, if d.Bool? then None else Some([Datum(d), Text("is not boolean")])))
    case IntK(bits) =>
      var m :- IntMessage(h, d, IntMin(bits), IntMax(bits), "int" + Decimal(bits));
      Ok(Applied(root, m))
    case UIntK(bits) =>
      var m :- IntMessage(h, d, 0, UIntMax(bits), "uint" + Decimal(bits));
      Ok(Applied(root, m))
    case FloatK(name) => Ok(Applied(root, FloatMessage(d, name)))
    case StrK => Ok(Applied(root, if d.Str? then None else Some([Datum(d), Text("is not string")])))
    case Tuple(items) =>
      if !IsArray(h, d) then Ok(Applied(root, Some([Datum(d), Text("is not tuple"), TypeList(items)])))
      else
        var r :- TupleItems(fuel, env, h[d.addr].items, items, 0, path, root);
        Ok(Applied(r, None))
    case Rest(inner) =>
      if !IsArray(h, d) then Ok(Applied(root, Some([Datum(d), Text("is not rest"), TypeOf(inner)])))
      else
        var r :- RestItems(fuel, env, h[d.addr].items, inner, 0, path, root);
        Ok(Applied(r, None))
    case Eq(val) =>
      Ok(Applied(root, if Equality.DeepEqualTy(h, d, val) then None else Some([Datum(d), Text("is not deep equal"), TypeOf(val)])))
    case Enum(vals) =>
      Ok(Applied(root, if Equality.AnyDeepEqual(h, d, vals) then None else Some([Datum(d), Text("is not one of enum"), TypeList(vals)])))
    case Optional(inner) =>
      if d == Undef then Ok(Applied(root, None))
      else
        var r :- Walk(fuel, env, d, inner, path, root);
        Ok(Applied(r, None))
    case MockAlt(_, inner) =>
      var r :- Walk(fuel, env, d, inner, path, root);
      Ok(Applied(r, None))
    case MockKey(_, inner) =>
      var r :- Walk(fuel, env, d, inner, path, root);
      Ok(Applied(r, None))
    case AllOf(ts) =>
      var r :- AllOfLoop(fuel, env, d, ts, 0, path, root);
      Ok(Applied(r, None))
    case OneOf(ts) => ApplyOneOf(fuel, env, d, ts, path, root)
    case AnyOf(ts) =>
      var r :- AnyOfLoop(fuel, env, d, ts, 0, path, root, []);
      Ok(Applied(r, None))
    case AnyK => Ok(Applied(root, None))
    case Not(t) => ApplyNot(fuel, env, d, t, path, root)
    case NilK => Ok(Applied(root, if d == Undef then None else Some([Datum(d), Text("should be undefined")])))
    case NeverK => Ok(Applied(Push(root, path, [Text("property should be void")]), None))
    case Ref(target) =>
      var t :- ResolveRef(root, target);
      if t.Fn? && t.id == id then Fail(Thrown("ref should not ref itself"))
      else
        var r :- Walk(fuel, env, d, t, path, root);
        Ok(Applied(r, None))
    case Definition(p, shown) => ApplyDefinition(fuel, env, d, p, shown, path, root)
    case Match(scrutinee, cases) => ApplyMatch(fuel, env, d, scrutinee, cases, path, root)
    case Description(_, inner) =>
      var r :- Walk(fuel, env, d, inner, path, root);
      Ok(Applied(r, None))
    case Range(lo, hi, inner) => ApplyRange(fuel, env, d, lo, hi, inner, path, root)
  }

  /** `oneOf(ts)`: every member is attempted; the verdict depends on how many accept. */
  function ApplyOneOf(fuel: nat, env: Env, d: Value, ts: seq<Ty>, path: seq<string>, root: Root): (r: Result<Applied>)
    ensures r.Ok? ==> Kept(root, r.value.root, path)
    decreases fuel, 3
  {
    var tally :- OneOfLoop(fuel, env, d, ts, 0, path, root, Tally(0, root.errors));
    var errors := OneOfErrors(root.errors, path, d, ts, tally.count);
    KeptExtend(root, path, errors[|root.errors|..]);
    assert errors == root.errors + errors[|root.errors|..];
    Ok(Applied(root.(errors := errors), None))
  }

  /** `not(t)`: passes when `t` finds errors; otherwise one error saying the datum should not be `t`. */
  function ApplyNot(fuel: nat, env: Env, d: Value, t: Ty, path: seq<string>, root: Root): (r: Result<Applied>)
    ensures r.Ok? ==> Kept(root, r.value.root, path)
    decreases fuel, 3
  {
    var e :- Attempt(fuel, env, d, t, path, root);
    if e != [] then Ok(Applied(root, None))
    else
      KeptExtend(root, path, NotFragments(d, t));
      Ok(Applied(root.(errors := root.errors + NotFragments(d, t)), None))
  }

  /** `definition(path)`: the type declared at that path of the declarations, when there is a truthy one. */
  function ApplyDefinition(fuel: nat, env: Env, d: Value, p: seq<string>, shown: string, path: seq<string>, root: Root)
    : (r: Result<Applied>)
    ensures r.Ok? ==> Kept(root, r.value.root, path)
    decreases fuel, 3
  {
    if !IsObjectLikeTy(root.declares) then Fail(Thrown("not implemented type:" + shown))
    else
      match GetPath(root.declares, p)
      case Some(t) =>
        if TruthyTy(t) then
          var r :- Walk(fuel, env, d, t, path, root);
          Ok(Applied(r, None))
        else Ok(Applied(Push(root, path, [Text("not implemented type:" + shown)]), None))
      case None => Ok(Applied(Push(root, path, [Text("not implemented type:" + shown)]), None))
  }

  /** `match(fn, cases)`: the packed scrutinee is evaluated on the root datum and the cases tried in order. */
  function ApplyMatch(fuel: nat, env: Env, d: Value, scrutinee: Ty, cases: seq<Case>, path: seq<string>, root: Root)
    : (r: Result<Applied>)
    ensures r.Ok? ==> Kept(root, r.value.root, path)
    decreases fuel, 3
  {
    if scrutinee.Packed? then
      var v :- Expressions.Eval(env.heap, root.data, scrutinee.e);
      MatchLoop(fuel, env, d, v, cases, 0, path, root)
    else if IsFunction(scrutinee) then Fail(Unmodelled("a match scrutinee that is not a packed expression"))
    else Fail(Thrown("fn is not a function"))
  }

  /** `range(lo, hi, t)`: the measure of the datum must lie within the bounds, and then the datum must be `t`. */
  function ApplyRange(fuel: nat, env: Env, d: Value, lo: int, hi: int, inner: Ty, path: seq<string>, root: Root)
    : (r: Result<Applied>)
    ensures r.Ok? ==> Kept(root, r.value.root, path)
    decreases fuel, 3
  {
    match RangeMeasure(env.heap, d)
    case None => Ok(Applied(root, Some([Datum(d), Text("is not in number, array, string")])))
    case Some(n) =>
      if n > hi || n < lo then Ok(Applied(root, Some([Datum(d), Text(RangeText(lo, hi))])))
      else
        var r :- Walk(fuel, env, d, inner, path, root);
        Ok(Applied(r, None))
  }

  /**
   * The loop of `tuple`: item `i` validates element `i`, until an item that is
   * a `rest(...)`, which validates the remaining elements and ends the loop.
   * Reading the `___rest` flag of an undefined or null item throws.
   */
  function TupleItems(fuel: nat, env: Env, data: seq<Value>, items: seq<Ty>, i: nat, path: seq<string>, root: Root)
    : (r: Result<Root>)
    requires i <= |items|
    ensures r.Ok? ==> Kept(root, r.value, path)
    decreases fuel, 2, |items| - i
  {
    if i == |items| then Ok(root)
    else
      var t := items[i];
      if t == Void || t == Lit(Null) then
        Fail(Thrown("Cannot read property '___rest' of " + (if t == Void then "undefined" else "null")))
      else if t.Fn? && t.c.Rest? then
        if fuel == 0 then Fail(StackExhausted)
        else RestItems(fuel - 1, env, if i <= |data| then data[i..] else [], t.c.inner, 0, path, root)
      else if t.Shape? && EntryLookup(t.entries, "___rest").Some? && TruthyTy(EntryLookup(t.entries, "___rest").value) then
        Fail(Unmodelled("an object type with a truthy ___rest key inside a tuple"))
      else
        var r :- Walk(fuel, env, if i < |data| then data[i] else Undef, t, path, root);
        var s :- TupleItems(fuel, env, data, items, i + 1, path, r);
        KeptTrans(root, r, s, path);
        Ok(s)
  }

  /** The loop of `rest`: every element validates against the one type, at the same path. */
  function RestItems(fuel: nat, env: Env, data: seq<Value>, inner: Ty, j: nat, path: seq<string>, root: Root)
    : (r: Result<Root>)
    requires j <= |data|
    ensures r.Ok? ==> Kept(root, r.value, path)
    decreases fuel, 1, |data| - j
  {
    if j == |data| then Ok(root)
    else
      var r :- Walk(fuel, env, data[j], inner, path, root);
      var s :- RestItems(fuel, env, data, inner, j + 1, path, r);
      KeptTrans(root, r, s, path);
      Ok(s)
  }

  /** The loop of `allOf`: every member validates the datum, errors accumulating. */
  function AllOfLoop(fuel: nat, env: Env, d: Value, ts: seq<Ty>, i: nat, path: seq<string>, root: Root)
    : (r: Result<Root>)
    requires i <= |ts|
    ensures r.Ok? ==> Kept(root, r.value, path)
    decreases fuel, 2, |ts| - i
  {
    if i == |ts| then Ok(root)
    else
      var r :- Walk(fuel, env, d, ts[i], path, root);
      var s :- AllOfLoop(fuel, env, d, ts, i + 1, path, r);
      KeptTrans(root, r, s, path);
      Ok(s)
  }

  /**
   * The loop of `anyOf`: members are tried in order, each from an empty error
   * list; the first that finds no error ends it with the caller's errors, and
   * if none does, the errors of all attempts are appended to them.
   */
  function AnyOfLoop(fuel: nat, env: Env, d: Value, ts: seq<Ty>, i: nat, path: seq<string>, root: Root,
                     rets: seq<Issue>): (r: Result<Root>)
    requires i <= |ts|
    requires Under(path, rets)
    ensures r.Ok? ==> Kept(root, r.value, path)
    decreases fuel, 2, |ts| - i
  {
    if i == |ts| then
      KeptExtend(root, path, rets);
      Ok(root.(errors := root.errors + rets))
    else
      var e :- Attempt(fuel, env, d, ts[i], path, root);
      if e == [] then Ok(root)
      else
        UnderConcat(path, rets, e);
        AnyOfLoop(fuel, env, d, ts, i + 1, path, root, rets + e)
  }

  /** The loop of `oneOf`: every member is tried from an empty error list; those that find no error are counted. */
  function OneOfLoop(fuel: nat, env: Env, d: Value, ts: seq<Ty>, i: nat, path: seq<string>, root: Root, tally: Tally)
    : (r: Result<Tally>)
    requires i <= |ts|
    ensures r.Ok? ==> tally.count <= r.value.count <= tally.count + (|ts| - i)
    decreases fuel, 2, |ts| - i
  {
    if i == |ts| then Ok(tally)
    else
      var e :- Attempt(fuel, env, d, ts[i], path, root);
      OneOfLoop(fuel, env, d, ts, i + 1, path, root, Tally(if e == [] then tally.count + 1 else tally.count, e))
  }

  /**
   * The loop of `match`: the first case whose condition the evaluated
   * scrutinee `v` satisfies (from an empty error list) validates the datum
   * against its type; with no such case the message says so.
   */
  function MatchLoop(fuel: nat, env: Env, d: Value, v: Value, cases: seq<Case>, i: nat, path: seq<string>, root: Root)
    : (r: Result<Applied>)
    requires i <= |cases|
    ensures r.Ok? ==> Kept(root, r.value.root, path)
    decreases fuel, 2, |cases| - i
  {
    if i == |cases| then Ok(Applied(root, Some([Datum(d), Text("doesn't match any case of"), CaseList(cases)])))
    else
      var e :- Attempt(fuel, env, v, cases[i].cond, path, root);
      if e == [] then
        var r :- Walk(fuel, env, d, cases[i].body, path, root);
        Ok(Applied(r, None))
      else MatchLoop(fuel, env, d, v, cases, i + 1, path, root)
  }

  // ---------------------------------------------------------------------------
  //  The entry point
  // ---------------------------------------------------------------------------

  /** The default export: the errors of a walk from the root, or `None` when there are none. */
  function Validate(fuel: nat, env: Env, data: Value, schema: Ty, declares: Ty): (r: Result<Option<seq<Issue>>>)
    ensures r.Ok? && r.value.Some? ==> r.value.value != []
    ensures r.Ok? ==> Walk(fuel, env, data, schema, [], NewRoot(data, schema, declares)).Ok?
    ensures r.Ok? <==> Walk(fuel, env, data, schema, [], NewRoot(data, schema, declares)).Ok?
    ensures r.Ok? ==> var errors := Walk(fuel, env, data, schema, [], NewRoot(data, schema, declares)).value.errors;
            (r.value.None? <==> errors == []) && (r.value.Some? ==> r.value.value == errors)
  {
    var root :- Walk(fuel, env, data, schema, [], NewRoot(data, schema, declares));
    Ok(if root.errors == [] then None else Some(root.errors))
  }
}
