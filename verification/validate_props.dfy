/*******************************************************************************
 *  What the combinators promise when validating, stated over the walk.
 *
 *  "Passes" means the walk returns normally and leaves the error list as it
 *  found it.  An attempt is a walk started from an empty error list (how
 *  `anyOf`, `oneOf`, `not` and `match` try their members); a member accepts
 *  when its attempt finds no error.
 *******************************************************************************/

module ValidationProps {
  import opened Outcomes
  import opened Values
  import opened Types
  import opened Interfaces
  import Utils
  import Equality
  import Expressions
  import opened Validation

  predicate Passes(r: Result<Root>, root: Root) {
    r.Ok? && r.value.errors == root.errors
  }

  /** The member `t` accepts the datum: its attempt returns normally with no error. */
  predicate Accepts(fuel: nat, env: Env, d: Value, t: Ty, path: seq<string>, root: Root) {
    Attempt(fuel, env, d, t, path, root) == Ok([])
  }

  // ---------------------------------------------------------------------------
  //  Scalars
  // ---------------------------------------------------------------------------

  /** `int(bits)` accepts exactly the numbers in `[-2^(bits-1), 2^(bits-1) - 1]`, and says which bound it broke. */
  lemma IntAcceptsExactlyItsRange(fuel: nat, env: Env, n: int, id: Id, bits: Bits, path: seq<string>, root: Root)
    ensures var r := Walk(fuel + 1, env, Num(n), Fn(id, IntK(bits)), path, root);
            r.Ok? && (r.value == root <==> IntMin(bits) <= n <= IntMax(bits))
            && (!(IntMin(bits) <= n <= IntMax(bits)) ==>
                  r.value.errors == root.errors + [Record(LierError(path, [Text(NumberText(n)), Text("is out of range of"), Text("int" + Decimal(bits))]))])
  {
  }

  /** `uint(bits)` accepts exactly the numbers in `[0, 2^bits - 1]`. */
  lemma UIntAcceptsExactlyItsRange(fuel: nat, env: Env, n: int, id: Id, bits: Bits, path: seq<string>, root: Root)
    ensures var r := Walk(fuel + 1, env, Num(n), Fn(id, UIntK(bits)), path, root);
            r.Ok? && (r.value == root <==> 0 <= n <= UIntMax(bits))
  {
  }

  /**
   * A digit string that a double holds exactly is not an integer to `int`;
   * one beyond the safe range is checked against the bounds by its value.
   */
  lemma IntOnDigitStrings(fuel: nat, env: Env, s: string, id: Id, bits: Bits, path: seq<string>, root: Root)
    requires Utils.IsSignedDigits(s) && s[0] != '+'
    ensures var r := Walk(fuel + 1, env, Str(s), Fn(id, IntK(bits)), path, root);
            var v := Utils.SignedValue(s);
            r.Ok?
            && (Utils.MIN_SAFE_INTEGER <= v <= Utils.MAX_SAFE_INTEGER ==>
                  r.value.errors == root.errors + [Record(LierError(path, [Datum(Str(s)), Text("is not an integer")]))])
            && (!(Utils.MIN_SAFE_INTEGER <= v <= Utils.MAX_SAFE_INTEGER) ==> (r.value == root <==> IntMin(bits) <= v <= IntMax(bits)))
  {
  }

  /**
   * A one-element array holding a digit string is read through `String`, as
   * `isInteger` and Big.js read it: within the safe range it is not an
   * integer; beyond it, the value is checked against the bounds, and a value
   * out of range is printed as `String` prints it.
   */
  lemma IntOnOneElementArrays(fuel: nat, env: Env, a: Addr, s: string, id: Id, bits: Bits, path: seq<string>, root: Root)
    requires a in env.heap && env.heap[a] == Arr([Str(s)])
    requires Utils.IsSignedDigits(s) && s[0] != '+'
    ensures var r := Walk(fuel + 1, env, Ptr(a), Fn(id, IntK(bits)), path, root);
            var v := Utils.SignedValue(s);
            r.Ok?
            && (Utils.MIN_SAFE_INTEGER <= v <= Utils.MAX_SAFE_INTEGER ==>
                  r.value.errors == root.errors + [Record(LierError(path, [Datum(Ptr(a)), Text("is not an integer")]))])
            && (!(Utils.MIN_SAFE_INTEGER <= v <= Utils.MAX_SAFE_INTEGER) ==> (r.value == root <==> IntMin(bits) <= v <= IntMax(bits)))
            && (!(Utils.MIN_SAFE_INTEGER <= v <= Utils.MAX_SAFE_INTEGER) && !(IntMin(bits) <= v <= IntMax(bits)) ==>
                  r.value.errors == root.errors
                    + [Record(LierError(path, [Text(NumberText(v)), Text("is out of range of"), Text("int" + Decimal(bits))]))])
  {
    assert Utils.HeapText(env.heap, Ptr(a)) == Ok(Some(s));
  }

  /** `bool` passes exactly the booleans, `str` exactly the strings. */
  lemma BoolAndStrKinds(fuel: nat, env: Env, d: Value, id: Id, path: seq<string>, root: Root)
    ensures Passes(Walk(fuel + 1, env, d, Fn(id, BoolK), path, root), root) <==> d.Bool?
    ensures Passes(Walk(fuel + 1, env, d, Fn(id, StrK), path, root), root) <==> d.Str?
  {
  }

  /** `nil` passes exactly undefined. */
  lemma NilPassesOnlyUndefined(fuel: nat, env: Env, d: Value, id: Id, path: seq<string>, root: Root)
    ensures Passes(Walk(fuel + 1, env, d, Fn(id, NilK), path, root), root) <==> d == Undef
  {
    FnWalk(fuel, env, d, id, NilK, path, root);
  }

  /** `any` passes everything, and `never` nothing: it always records one error. */
  lemma AnyAndNever(fuel: nat, env: Env, d: Value, id: Id, path: seq<string>, root: Root)
    ensures Walk(fuel + 1, env, d, Fn(id, AnyK), path, root) == Ok(root)
    ensures Walk(fuel + 1, env, d, Fn(id, NeverK), path, root)
              == Ok(root.(errors := root.errors + [Record(LierError(path, [Text("property should be void")]))]))
  {
    FnWalk(fuel, env, d, id, AnyK, path, root);
    FnWalk(fuel, env, d, id, NeverK, path, root);
  }

  /** `eq(v)` passes exactly the data deep-equal to `v`; `enum(...)` those deep-equal to one of its values. */
  lemma EqAndEnum(fuel: nat, env: Env, d: Value, id: Id, v: Ty, vs: seq<Ty>, path: seq<string>, root: Root)
    ensures Passes(Walk(fuel + 1, env, d, Fn(id, Eq(v)), path, root), root) <==> Equality.DeepEqualTy(env.heap, d, v)
    ensures Passes(Walk(fuel + 1, env, d, Fn(id, Enum(vs)), path, root), root) <==>
              exists i :: 0 <= i < |vs| && Equality.DeepEqualTy(env.heap, d, vs[i])
  {
  }

  /** `optional(t)` lets undefined through and otherwise is `t`. */
  lemma OptionalIsUndefinedOrInner(fuel: nat, env: Env, d: Value, id: Id, t: Ty, path: seq<string>, root: Root)
    ensures d == Undef ==> Walk(fuel + 1, env, d, Fn(id, Optional(t)), path, root) == Ok(root)
    ensures d != Undef ==> Walk(fuel + 1, env, d, Fn(id, Optional(t)), path, root) == Walk(fuel, env, d, t, path, root)
  {
  }

  /**
   * `range(lo, hi, t)` on a number, string or array: outside the bounds it
   * records one error naming them; inside, it is `t`.  Anything else is
   * rejected outright.
   */
  lemma RangeChecksThenDelegates(fuel: nat, env: Env, d: Value, id: Id, lo: int, hi: int, t: Ty,
                                 path: seq<string>, root: Root)
    ensures var r := Walk(fuel + 1, env, d, Fn(id, Range(lo, hi, t)), path, root);
            match RangeMeasure(env.heap, d)
            case None => r == Ok(root.(errors := root.errors + [Record(LierError(path, [Datum(d), Text("is not in number, array, string")]))]))
            case Some(n) =>
              if lo <= n <= hi then r == Walk(fuel, env, d, t, path, root)
              else r == Ok(root.(errors := root.errors + [Record(LierError(path, [Datum(d), Text(RangeText(lo, hi))]))]))
  {
    FnWalk(fuel, env, d, id, Range(lo, hi, t), path, root);
    assert Apply(fuel, env, d, id, Range(lo, hi, t), path, root) == ApplyRange(fuel, env, d, lo, hi, t, path, root);
  }

  /** A `ref` that resolves to its own function object throws instead of recursing. */
  lemma RefToItselfThrows(fuel: nat, env: Env, d: Value, id: Id, target: Option<seq<string>>, path: seq<string>, root: Root)
    requires ResolveRef(root, target) == Ok(Fn(id, Ref(target)))
    ensures Walk(fuel + 1, env, d, Fn(id, Ref(target)), path, root) == Fail(Thrown("ref should not ref itself"))
  {
  }

  /** A definition missing from (or falsy in) the declarations is one error, not an exception. */
  lemma MissingDefinitionIsAnError(fuel: nat, env: Env, d: Value, id: Id, p: seq<string>, shown: string, path: seq<string>,
                                   root: Root)
    requires IsObjectLikeTy(root.declares)
    requires GetPath(root.declares, p).None? || !TruthyTy(GetPath(root.declares, p).value)
    ensures Walk(fuel + 1, env, d, Fn(id, Definition(p, shown)), path, root)
              == Ok(root.(errors := root.errors + [Record(LierError(path, [Text("not implemented type:" + shown)]))]))
  {
    FnWalk(fuel, env, d, id, Definition(p, shown), path, root);
    assert Apply(fuel, env, d, id, Definition(p, shown), path, root) == ApplyDefinition(fuel, env, d, p, shown, path, root);
  }

  // ---------------------------------------------------------------------------
  //  anyOf
  // ---------------------------------------------------------------------------

  /** One round of the `anyOf` loop on a member that finds errors: they are kept and the loop goes on. */
  lemma AnyOfStep(fuel: nat, env: Env, d: Value, ts: seq<Ty>, i: nat, path: seq<string>, root: Root, rets: seq<Issue>)
    requires i < |ts| && Under(path, rets)
    requires Attempt(fuel, env, d, ts[i], path, root).Ok? && Attempt(fuel, env, d, ts[i], path, root).value != []
    ensures Under(path, rets + Attempt(fuel, env, d, ts[i], path, root).value)
    ensures AnyOfLoop(fuel, env, d, ts, i, path, root, rets)
              == AnyOfLoop(fuel, env, d, ts, i + 1, path, root, rets + Attempt(fuel, env, d, ts[i], path, root).value)
  {
    UnderConcat(path, rets, Attempt(fuel, env, d, ts[i], path, root).value);
  }

  /** One round of the `anyOf` loop that returned normally: an accepting member ends it, any other is kept. */
  lemma AnyOfRound(fuel: nat, env: Env, d: Value, ts: seq<Ty>, i: nat, path: seq<string>, root: Root, rets: seq<Issue>)
    requires i < |ts| && Under(path, rets)
    requires AnyOfLoop(fuel, env, d, ts, i, path, root, rets).Ok?
    ensures Attempt(fuel, env, d, ts[i], path, root).Ok?
    ensures var e := Attempt(fuel, env, d, ts[i], path, root).value;
            (e == [] ==> AnyOfLoop(fuel, env, d, ts, i, path, root, rets) == Ok(root)) &&
            (e != [] ==> Under(path, rets + e) &&
                           AnyOfLoop(fuel, env, d, ts, i, path, root, rets)
                             == AnyOfLoop(fuel, env, d, ts, i + 1, path, root, rets + e))
  {
    var e := Attempt(fuel, env, d, ts[i], path, root);
    if e.Ok? && e.value != [] {
      AnyOfStep(fuel, env, d, ts, i, path, root, rets);
    }
  }

  /** Once some member from index `i` on accepts, the loop ends with the state it was given. */
  lemma {:induction false} AnyOfLoopAccepted(fuel: nat, env: Env, d: Value, ts: seq<Ty>, i: nat, j: nat, path: seq<string>,
                                             root: Root, rets: seq<Issue>)
    requires i <= |ts| && Under(path, rets)
    requires AnyOfLoop(fuel, env, d, ts, i, path, root, rets).Ok?
    requires i <= j < |ts| && Accepts(fuel, env, d, ts[j], path, root)
    ensures AnyOfLoop(fuel, env, d, ts, i, path, root, rets).value == root
    decreases |ts| - i
  {
    AnyOfRound(fuel, env, d, ts, i, path, root, rets);
    var e := Attempt(fuel, env, d, ts[i], path, root);
    if e.value != [] {
      AnyOfLoopAccepted(fuel, env, d, ts, i + 1, j, path, root, rets + e.value);
    }
  }

  /** When no member from index `i` on accepts, the loop leaves the error list as it was only if nothing was gathered. */
  lemma {:induction false} AnyOfLoopRejected(fuel: nat, env: Env, d: Value, ts: seq<Ty>, i: nat, path: seq<string>,
                                             root: Root, rets: seq<Issue>)
    requires i <= |ts| && Under(path, rets)
    requires AnyOfLoop(fuel, env, d, ts, i, path, root, rets).Ok?
    requires forall j :: i <= j < |ts| ==> !Accepts(fuel, env, d, ts[j], path, root)
    ensures AnyOfLoop(fuel, env, d, ts, i, path, root, rets).value.errors == root.errors <==> rets == [] && i == |ts|
    decreases |ts| - i
  {
    if i < |ts| {
      AnyOfRound(fuel, env, d, ts, i, path, root, rets);
      var e := Attempt(fuel, env, d, ts[i], path, root);
      AnyOfLoopRejected(fuel, env, d, ts, i + 1, path, root, rets + e.value);
    }
  }

  /**
   * `anyOf(ts)` passes exactly when some member accepts (or there are no
   * members at all); it then keeps none of the members' errors.
   */
  lemma AnyOfPassesIffSomeMemberAccepts(fuel: nat, env: Env, d: Value, id: Id, ts: seq<Ty>, path: seq<string>, root: Root)
    requires Walk(fuel + 1, env, d, Fn(id, AnyOf(ts)), path, root).Ok?
    ensures Passes(Walk(fuel + 1, env, d, Fn(id, AnyOf(ts)), path, root), root) <==>
              ts == [] || exists j :: 0 <= j < |ts| && Accepts(fuel, env, d, ts[j], path, root)
  {
    FnWalk(fuel, env, d, id, AnyOf(ts), path, root);
    if exists j :: 0 <= j < |ts| && Accepts(fuel, env, d, ts[j], path, root) {
      var j :| 0 <= j < |ts| && Accepts(fuel, env, d, ts[j], path, root);
      AnyOfLoopAccepted(fuel, env, d, ts, 0, j, path, root, []);
    } else {
      AnyOfLoopRejected(fuel, env, d, ts, 0, path, root, []);
    }
  }

  // ---------------------------------------------------------------------------
  //  oneOf
  // ---------------------------------------------------------------------------

  /** How many of the members from index `i` on accept. */
  function AcceptCount(fuel: nat, env: Env, d: Value, ts: seq<Ty>, i: nat, path: seq<string>, root: Root): nat
    requires i <= |ts|
    decreases |ts| - i
  {
    if i == |ts| then 0
    else (if Accepts(fuel, env, d, ts[i], path, root) then 1 else 0) + AcceptCount(fuel, env, d, ts, i + 1, path, root)
  }

  /** One round of the `oneOf` loop: an accepting member adds one to the count. */
  lemma OneOfStep(fuel: nat, env: Env, d: Value, ts: seq<Ty>, i: nat, path: seq<string>, root: Root, tally: Tally)
    requires i < |ts| && OneOfLoop(fuel, env, d, ts, i, path, root, tally).Ok?
    ensures Attempt(fuel, env, d, ts[i], path, root).Ok?
    ensures var e := Attempt(fuel, env, d, ts[i], path, root).value;
            OneOfLoop(fuel, env, d, ts, i, path, root, tally)
              == OneOfLoop(fuel, env, d, ts, i + 1, path, root,
                           Tally(if Accepts(fuel, env, d, ts[i], path, root) then tally.count + 1 else tally.count, e))
  {
  }

  lemma {:induction false} OneOfLoopCounts(fuel: nat, env: Env, d: Value, ts: seq<Ty>, i: nat, path: seq<string>,
                                           root: Root, tally: Tally)
    requires i <= |ts|
    requires OneOfLoop(fuel, env, d, ts, i, path, root, tally).Ok?
    ensures OneOfLoop(fuel, env, d, ts, i, path, root, tally).value.count
              == tally.count + AcceptCount(fuel, env, d, ts, i, path, root)
    decreases |ts| - i
  {
    if i < |ts| {
      OneOfStep(fuel, env, d, ts, i, path, root, tally);
      var e := Attempt(fuel, env, d, ts[i], path, root).value;
      OneOfLoopCounts(fuel, env, d, ts, i + 1, path, root,
                      Tally(if Accepts(fuel, env, d, ts[i], path, root) then tally.count + 1 else tally.count, e));
    }
  }

  /** `oneOf(ts)` passes exactly when one and only one member accepts; otherwise it adds its own record. */
  lemma OneOfPassesIffExactlyOneAccepts(fuel: nat, env: Env, d: Value, id: Id, ts: seq<Ty>, path: seq<string>, root: Root)
    requires Walk(fuel + 1, env, d, Fn(id, OneOf(ts)), path, root).Ok?
    ensures var n := AcceptCount(fuel, env, d, ts, 0, path, root);
            Walk(fuel + 1, env, d, Fn(id, OneOf(ts)), path, root).value
              == root.(errors := OneOfErrors(root.errors, path, d, ts, n))
    ensures Passes(Walk(fuel + 1, env, d, Fn(id, OneOf(ts)), path, root), root) <==>
              AcceptCount(fuel, env, d, ts, 0, path, root) == 1
  {
    FnWalk(fuel, env, d, id, OneOf(ts), path, root);
    assert Apply(fuel, env, d, id, OneOf(ts), path, root) == ApplyOneOf(fuel, env, d, ts, path, root);
    OneOfLoopCounts(fuel, env, d, ts, 0, path, root, Tally(0, root.errors));
  }

  /** An environment for small concrete runs: no regular expression matches, every one compiles. */
  function PlainEnv(): Env {
    Env(map[], RegexEngine((re: Regex, s: string) => false, (b: string, f: string) => true))
  }

  /**
   * As written, a `oneOf` whose count is not one drops the errors found
   * before it: with an earlier error on record, `oneOf(bool, bool)` on `true`
   * (two members accept) leaves only its own record, where the caller's
   * error should have been kept in front of it.
   */
  lemma OneOfAsWrittenDropsEarlierErrors()
    ensures var earlier := Record(LierError(["x"], [Datum(Num(1)), Text("is not string")]));
            var root := NewRoot(Null, Void, Void).(errors := [earlier]);
            var ts := [Fn(1, BoolK), Fn(1, BoolK)];
            var tally := OneOfLoop(2, PlainEnv(), Bool(true), ts, 0, ["y"], root, Tally(0, root.errors));
            tally == Ok(Tally(2, []))
            && OneOfErrorsAsWritten(root.errors, ["y"], Bool(true), ts, tally.value) == [OneOfRecord(["y"], Bool(true), ts, 2)]
            && OneOfErrors(root.errors, ["y"], Bool(true), ts, tally.value.count) == [earlier, OneOfRecord(["y"], Bool(true), ts, 2)]
  {
    var earlier := Record(LierError(["x"], [Datum(Num(1)), Text("is not string")]));
    var root := NewRoot(Null, Void, Void).(errors := [earlier]);
    var ts := [Fn(1, BoolK), Fn(1, BoolK)];
    assert Walk(2, PlainEnv(), Bool(true), Fn(1, BoolK), ["y"], root.(errors := [])) == Ok(root.(errors := []));
    assert Attempt(2, PlainEnv(), Bool(true), Fn(1, BoolK), ["y"], root) == Ok([]);
  }

  // ---------------------------------------------------------------------------
  //  not and match
  // ---------------------------------------------------------------------------

  /** `not(t)` passes exactly when `t` does not accept; otherwise it appends three bare message fragments. */
  lemma NotPassesIffMemberRejects(fuel: nat, env: Env, d: Value, id: Id, t: Ty, path: seq<string>, root: Root)
    requires Attempt(fuel, env, d, t, path, root).Ok?
    ensures var r := Walk(fuel + 1, env, d, Fn(id, Not(t)), path, root);
            r.Ok?
            && (Accepts(fuel, env, d, t, path, root) ==> r.value.errors == root.errors + NotFragments(d, t))
            && (!Accepts(fuel, env, d, t, path, root) ==> r.value == root)
  {
    FnWalk(fuel, env, d, id, Not(t), path, root);
    assert Apply(fuel, env, d, id, Not(t), path, root) == ApplyNot(fuel, env, d, t, path, root);
  }

  /** The first case from index `i` on whose condition accepts the scrutinee `v`. */
  function FirstAcceptingCase(fuel: nat, env: Env, v: Value, cases: seq<Case>, i: nat, path: seq<string>, root: Root)
    : (k: Option<nat>)
    requires i <= |cases|
    ensures k.Some? ==> i <= k.value < |cases| && Accepts(fuel, env, v, cases[k.value].cond, path, root)
    ensures k.Some? ==> forall j :: i <= j < k.value ==> !Accepts(fuel, env, v, cases[j].cond, path, root)
    ensures k.None? ==> forall j :: i <= j < |cases| ==> !Accepts(fuel, env, v, cases[j].cond, path, root)
    decreases |cases| - i
  {
    if i == |cases| then None
    else if Accepts(fuel, env, v, cases[i].cond, path, root) then Some(i)
    else FirstAcceptingCase(fuel, env, v, cases, i + 1, path, root)
  }

  lemma {:induction false} MatchLoopFirstCase(fuel: nat, env: Env, d: Value, v: Value, cases: seq<Case>, i: nat,
                                              path: seq<string>, root: Root)
    requires i <= |cases|
    requires MatchLoop(fuel, env, d, v, cases, i, path, root).Ok?
    ensures var r := MatchLoop(fuel, env, d, v, cases, i, path, root).value;
            match FirstAcceptingCase(fuel, env, v, cases, i, path, root)
            case None => r == Applied(root, Some([Datum(d), Text("doesn't match any case of"), CaseList(cases)]))
            case Some(k) => r.message.None? && Walk(fuel, env, d, cases[k].body, path, root) == Ok(r.root)
    decreases |cases| - i
  {
    if i < |cases| {
      var e := Attempt(fuel, env, v, cases[i].cond, path, root);
      assert e.Ok?;
      if e.value != [] {
        MatchLoopFirstCase(fuel, env, d, v, cases, i + 1, path, root);
      }
    }
  }

  lemma ApplyIsMatch(fuel: nat, env: Env, d: Value, id: Id, s: Ty, cases: seq<Case>, path: seq<string>, root: Root)
    ensures Apply(fuel, env, d, id, Match(s, cases), path, root) == ApplyMatch(fuel, env, d, s, cases, path, root)
  {
  }

  /** The `match` combinator's step: the scrutinee is evaluated, then the cases are tried in order. */
  lemma MatchStep(fuel: nat, env: Env, d: Value, e: Expr, cases: seq<Case>, pid: Id, path: seq<string>, root: Root)
    ensures var a := ApplyMatch(fuel, env, d, Packed(pid, e), cases, path, root);
            var v := Expressions.Eval(env.heap, root.data, e);
            (v.Fail? ==> a == Fail(v.failure)) && (v.Ok? ==> a == MatchLoop(fuel, env, d, v.value, cases, 0, path, root))
  {
  }

  /**
   * `match`: the evaluated scrutinee picks the first case whose condition
   * accepts it, and the datum is validated against that case's type; when no
   * case accepts, one error says so.
   */
  lemma MatchTakesFirstAcceptingCase(fuel: nat, env: Env, d: Value, id: Id, e: Expr, cases: seq<Case>, pid: Id,
                                     path: seq<string>, root: Root)
    requires Walk(fuel + 1, env, d, Fn(id, Match(Packed(pid, e), cases)), path, root).Ok?
    ensures Expressions.Eval(env.heap, root.data, e).Ok?
    ensures var v := Expressions.Eval(env.heap, root.data, e).value;
            var r := Walk(fuel + 1, env, d, Fn(id, Match(Packed(pid, e), cases)), path, root).value;
            match FirstAcceptingCase(fuel, env, v, cases, 0, path, root)
            case None =>
              r == root.(errors := root.errors + [Record(LierError(path, [Datum(d), Text("doesn't match any case of"), CaseList(cases)]))])
            case Some(k) => Walk(fuel, env, d, cases[k].body, path, root) == Ok(r)
  {
    FnWalk(fuel, env, d, id, Match(Packed(pid, e), cases), path, root);
    ApplyIsMatch(fuel, env, d, id, Packed(pid, e), cases, path, root);
    MatchStep(fuel, env, d, e, cases, pid, path, root);
    var v := Expressions.Eval(env.heap, root.data, e).value;
    MatchLoopFirstCase(fuel, env, d, v, cases, 0, path, root);
  }

  // ---------------------------------------------------------------------------
  //  Arrays and objects
  // ---------------------------------------------------------------------------

  /** A (datum, type) pair already on the current descent is not walked again: this is what ends cycles. */
  lemma VisitedPairIsSkipped(fuel: nat, env: Env, d: Value, t: Ty, path: seq<string>, root: Root)
    requires t.List? || t.Shape?
    requires DataId(d) in root.visited && TypeId(t.id) in root.visited
    ensures Walk(fuel + 1, env, d, t, path, root) == Ok(root)
  {
  }

  /** An object type with `$export` validates the datum against the exported type, one level down the path. */
  lemma ExportDelegates(fuel: nat, env: Env, d: Value, id: Id, es: seq<Entry>, path: seq<string>, root: Root)
    requires EntryLookup(es, EXPORT_KEY).Some?
    requires !(DataId(d) in root.visited && TypeId(id) in root.visited)
    ensures var inner := root.(visited := root.visited + {DataId(d), TypeId(id)});
            var r := Walk(fuel + 2, env, d, Shape(id, es), path, root);
            var w := Walk(fuel + 1, env, d, EntryLookup(es, EXPORT_KEY).value, path + [EXPORT_KEY], inner);
            (r.Ok? <==> w.Ok?) && (r.Ok? ==> r.value == w.value.(visited := root.visited))
  {
  }

  // ---------------------------------------------------------------------------
  //  The walk itself
  // ---------------------------------------------------------------------------

  /** How a combinator's outcome becomes the walk's: a thrown error passes through, a message is pushed. */
  lemma FnWalk(fuel: nat, env: Env, d: Value, id: Id, c: Comb, path: seq<string>, root: Root)
    ensures var a := Apply(fuel, env, d, id, c, path, root);
            var w := Walk(fuel + 1, env, d, Fn(id, c), path, root);
            (a.Fail? ==> w == Fail(a.failure)) &&
            (a.Ok? && a.value.message.None? ==> w == Ok(a.value.root)) &&
            (a.Ok? && a.value.message.Some? ==> w == Ok(Push(a.value.root, path, a.value.message.value)))
  {
  }

  /** An undefined type throws; a combinator's message becomes one error record at the current path. */
  lemma VoidThrowsAndMessagesAreRecorded(fuel: nat, env: Env, d: Value, id: Id, c: Comb, path: seq<string>, root: Root)
    ensures Walk(fuel + 1, env, d, Void, path, root) == Fail(Thrown("type must not be void"))
    ensures var a := Apply(fuel, env, d, id, c, path, root);
            a.Ok? && a.value.message.Some? ==>
              Walk(fuel + 1, env, d, Fn(id, c), path, root)
                == Ok(a.value.root.(errors := a.value.root.errors + [Record(LierError(path, a.value.message.value))]))
  {
    FnWalk(fuel, env, d, id, c, path, root);
  }

  /** The `self` combinator's step is its message, on an unchanged state. */
  lemma SelfStep(fuel: nat, env: Env, d: Value, id: Id, e: Expr, path: seq<string>, root: Root)
    ensures var a := Apply(fuel, env, d, id, Self(e), path, root);
            var m := SelfMessage(fuel, env.heap, d, e, root.data);
            (a.Ok? <==> m.Ok?) && (a.Ok? ==> a.value == Applied(root, m.value))
  {
  }

  /** `self(fn)` passes exactly when the datum deep-equals the expression's value on the root datum. */
  lemma SelfComparesWithExpression(fuel: nat, env: Env, d: Value, id: Id, e: Expr, path: seq<string>, root: Root)
    requires Expressions.Eval(env.heap, root.data, e).Ok?
    requires Equality.IsEqual(fuel, env.heap, d, Expressions.Eval(env.heap, root.data, e).value).Ok?
    ensures Passes(Walk(fuel + 1, env, d, Fn(id, Self(e)), path, root), root) <==>
              Equality.IsEqual(fuel, env.heap, d, Expressions.Eval(env.heap, root.data, e).value) == Ok(true)
  {
    FnWalk(fuel, env, d, id, Self(e), path, root);
    SelfStep(fuel, env, d, id, e, path, root);
  }

  /** The value `self(fn)` mocks to (the expression's value) is accepted by it. */
  lemma SelfAcceptsItsOwnValue(fuel: nat, env: Env, id: Id, e: Expr, path: seq<string>, root: Root)
    requires Expressions.Eval(env.heap, root.data, e).Ok?
    ensures Walk(fuel + 1, env, Expressions.Eval(env.heap, root.data, e).value, Fn(id, Self(e)), path, root) == Ok(root)
  {
    var v := Expressions.Eval(env.heap, root.data, e).value;
    FnWalk(fuel, env, v, id, Self(e), path, root);
    SelfStep(fuel, env, v, id, e, path, root);
  }

  // ---------------------------------------------------------------------------
  //  anyOf when every member rejects
  // ---------------------------------------------------------------------------

  /** The errors of the attempts of the members from index `i` on, in member order. */
  function AttemptErrors(fuel: nat, env: Env, d: Value, ts: seq<Ty>, i: nat, path: seq<string>, root: Root): seq<Issue>
    requires i <= |ts| && forall j :: i <= j < |ts| ==> Attempt(fuel, env, d, ts[j], path, root).Ok?
    decreases |ts| - i
  {
    if i == |ts| then []
    else Attempt(fuel, env, d, ts[i], path, root).value + AttemptErrors(fuel, env, d, ts, i + 1, path, root)
  }

  lemma {:induction false} AnyOfLoopKeepsEveryAttempt(fuel: nat, env: Env, d: Value, ts: seq<Ty>, i: nat,
                                                      path: seq<string>, root: Root, rets: seq<Issue>)
    requires i <= |ts| && Under(path, rets)
    requires forall j :: i <= j < |ts| ==> Attempt(fuel, env, d, ts[j], path, root).Ok?
    requires forall j :: i <= j < |ts| ==> Attempt(fuel, env, d, ts[j], path, root).value != []
    ensures AnyOfLoop(fuel, env, d, ts, i, path, root, rets)
              == Ok(root.(errors := root.errors + (rets + AttemptErrors(fuel, env, d, ts, i, path, root))))
    decreases |ts| - i
  {
    if i == |ts| {
      assert rets + [] == rets;
    } else {
      var e := Attempt(fuel, env, d, ts[i], path, root).value;
      var later := AttemptErrors(fuel, env, d, ts, i + 1, path, root);
      assert AttemptErrors(fuel, env, d, ts, i, path, root) == e + later;
      AnyOfStep(fuel, env, d, ts, i, path, root, rets);
      AnyOfLoopKeepsEveryAttempt(fuel, env, d, ts, i + 1, path, root, rets + e);
      ConcatAssociates(rets, e, later);
    }
  }

  /** When no member accepts, `anyOf` appends the errors of every member, in member order. */
  lemma AnyOfRejectionKeepsEveryAttempt(fuel: nat, env: Env, d: Value, id: Id, ts: seq<Ty>, path: seq<string>, root: Root)
    requires forall j :: 0 <= j < |ts| ==> Attempt(fuel, env, d, ts[j], path, root).Ok?
    requires forall j :: 0 <= j < |ts| ==> Attempt(fuel, env, d, ts[j], path, root).value != []
    ensures Walk(fuel + 1, env, d, Fn(id, AnyOf(ts)), path, root)
              == Ok(root.(errors := root.errors + AttemptErrors(fuel, env, d, ts, 0, path, root)))
  {
    FnWalk(fuel, env, d, id, AnyOf(ts), path, root);
    AnyOfLoopKeepsEveryAttempt(fuel, env, d, ts, 0, path, root, []);
    assert [] + AttemptErrors(fuel, env, d, ts, 0, path, root) == AttemptErrors(fuel, env, d, ts, 0, path, root);
  }

  // ---------------------------------------------------------------------------
  //  Arrays and objects
  // ---------------------------------------------------------------------------

  /** Every element from `j` on is walked at its index; elements that each pass leave the state as it was. */
  lemma {:induction false} ArrayItemsPass(fuel: nat, env: Env, items: seq<Value>, elem: Ty, j: nat, path: seq<string>,
                                          root: Root)
    requires j <= |items|
    requires forall m :: j <= m < |items| ==> Walk(fuel, env, items[m], elem, path + [Decimal(m)], root) == Ok(root)
    ensures ArrayItems(fuel, env, items, elem, j, path, root) == Ok(root)
    decreases |items| - j
  {
    if j < |items| {
      ArrayItemsPass(fuel, env, items, elem, j + 1, path, root);
    }
  }

  /** The errors of the first element that fails stay at the front of what the loop adds. */
  lemma {:induction false} ArrayItemsKeepFirstFailure(fuel: nat, env: Env, items: seq<Value>, elem: Ty, j: nat, k: nat,
                                                      path: seq<string>, root: Root)
    requires j <= k < |items|
    requires forall m :: j <= m < k ==> Walk(fuel, env, items[m], elem, path + [Decimal(m)], root) == Ok(root)
    requires Walk(fuel, env, items[k], elem, path + [Decimal(k)], root).Ok?
    requires ArrayItems(fuel, env, items, elem, j, path, root).Ok?
    ensures Walk(fuel, env, items[k], elem, path + [Decimal(k)], root).value.errors
              <= ArrayItems(fuel, env, items, elem, j, path, root).value.errors
    decreases k - j
  {
    if j < k {
      ArrayItemsKeepFirstFailure(fuel, env, items, elem, j + 1, k, path, root);
    }
  }

  // ---------------------------------------------------------------------------
  //  allOf, rest and tuple
  // ---------------------------------------------------------------------------

  /** Two walks that lead from one state to another and back add no error, so the states are the same. */
  lemma BackToStart(a: Root, b: Root, path: seq<string>)
    requires Kept(a, b, path) && Kept(b, a, path)
    ensures b == a
  {
    assert a.errors <= b.errors && b.errors <= a.errors;
  }

  /** One member of the `allOf` loop: the loop passes when this member and the ones after it do. */
  lemma AllOfStep(fuel: nat, env: Env, d: Value, ts: seq<Ty>, i: nat, path: seq<string>, root: Root)
    requires i < |ts|
    ensures AllOfLoop(fuel, env, d, ts, i, path, root) == Ok(root)
            <==> Walk(fuel, env, d, ts[i], path, root) == Ok(root) && AllOfLoop(fuel, env, d, ts, i + 1, path, root) == Ok(root)
  {
    var w := Walk(fuel, env, d, ts[i], path, root);
    if w.Ok? && AllOfLoop(fuel, env, d, ts, i + 1, path, w.value) == Ok(root) {
      BackToStart(root, w.value, path);
    }
  }

  /** The `allOf` loop leaves the state as it was exactly when every member from `i` on does. */
  lemma {:induction false} AllOfLoopPasses(fuel: nat, env: Env, d: Value, ts: seq<Ty>, i: nat, path: seq<string>,
                                           root: Root)
    requires i <= |ts|
    ensures AllOfLoop(fuel, env, d, ts, i, path, root) == Ok(root)
            <==> forall m :: i <= m < |ts| ==> Walk(fuel, env, d, ts[m], path, root) == Ok(root)
    decreases |ts| - i
  {
    if i < |ts| {
      AllOfLoopPasses(fuel, env, d, ts, i + 1, path, root);
      AllOfStep(fuel, env, d, ts, i, path, root);
    }
  }

  /** `allOf(ts)` passes exactly when every member, walked on the same datum at the same path, passes. */
  lemma AllOfPassesIffEveryMemberPasses(fuel: nat, env: Env, d: Value, id: Id, ts: seq<Ty>, path: seq<string>, root: Root)
    ensures Walk(fuel + 1, env, d, Fn(id, AllOf(ts)), path, root) == Ok(root)
            <==> forall m :: 0 <= m < |ts| ==> Walk(fuel, env, d, ts[m], path, root) == Ok(root)
  {
    AllOfLoopPasses(fuel, env, d, ts, 0, path, root);
  }

  /** The `rest` loop leaves the state as it was exactly when every element from `j` on passes. */
  lemma {:induction false} RestItemsPass(fuel: nat, env: Env, data: seq<Value>, inner: Ty, j: nat, path: seq<string>,
                                         root: Root)
    requires j <= |data|
    ensures RestItems(fuel, env, data, inner, j, path, root) == Ok(root)
            <==> forall m :: j <= m < |data| ==> Walk(fuel, env, data[m], inner, path, root) == Ok(root)
    decreases |data| - j
  {
    if j < |data| {
      RestItemsPass(fuel, env, data, inner, j + 1, path, root);
      RestStep(fuel, env, data, inner, j, path, root);
    }
  }

  /** One element of the `rest` loop: the loop passes when this element and the ones after it do. */
  lemma RestStep(fuel: nat, env: Env, data: seq<Value>, inner: Ty, j: nat, path: seq<string>, root: Root)
    requires j < |data|
    ensures RestItems(fuel, env, data, inner, j, path, root) == Ok(root)
            <==> Walk(fuel, env, data[j], inner, path, root) == Ok(root)
                 && RestItems(fuel, env, data, inner, j + 1, path, root) == Ok(root)
  {
    var w := Walk(fuel, env, data[j], inner, path, root);
    if w.Ok? && RestItems(fuel, env, data, inner, j + 1, path, w.value) == Ok(root) {
      BackToStart(root, w.value, path);
    }
  }

  /**
   * `rest(t)` reports a datum that is not an array, and passes an array
   * exactly when each element passes `t` at the same path.
   */
  lemma RestPassesIffEveryElementPasses(fuel: nat, env: Env, d: Value, id: Id, inner: Ty, path: seq<string>, root: Root)
    ensures !IsArray(env.heap, d) ==>
              Walk(fuel + 1, env, d, Fn(id, Rest(inner)), path, root)
              == Ok(Push(root, path, [Datum(d), Text("is not rest"), TypeOf(inner)]))
    ensures IsArray(env.heap, d) ==>
              (Walk(fuel + 1, env, d, Fn(id, Rest(inner)), path, root) == Ok(root)
               <==> forall m :: 0 <= m < |env.heap[d.addr].items| ==>
                      Walk(fuel, env, env.heap[d.addr].items[m], inner, path, root) == Ok(root))
  {
    if IsArray(env.heap, d) {
      RestItemsPass(fuel, env, env.heap[d.addr].items, inner, 0, path, root);
    }
  }

  /** A tuple item validated against one element: not undefined, null, `rest(...)`, nor flagged `___rest`. */
  predicate PlainItem(t: Ty) {
    t != Void && t != Lit(Null) && !(t.Fn? && t.c.Rest?)
    && !(t.Shape? && EntryLookup(t.entries, "___rest").Some? && TruthyTy(EntryLookup(t.entries, "___rest").value))
  }

  /** `data[i]`, undefined past the end. */
  function ElementAt(data: seq<Value>, i: nat): Value {
    if i < |data| then data[i] else Undef
  }

  /** One plain item of the `tuple` loop: the loop passes when this item and the ones after it do. */
  lemma TupleStep(fuel: nat, env: Env, data: seq<Value>, items: seq<Ty>, i: nat, path: seq<string>, root: Root)
    requires i < |items| && PlainItem(items[i])
    ensures TupleItems(fuel, env, data, items, i, path, root) == Ok(root)
            <==> Walk(fuel, env, ElementAt(data, i), items[i], path, root) == Ok(root)
                 && TupleItems(fuel, env, data, items, i + 1, path, root) == Ok(root)
  {
    var w := Walk(fuel, env, ElementAt(data, i), items[i], path, root);
    if w.Ok? && TupleItems(fuel, env, data, items, i + 1, path, w.value) == Ok(root) {
      BackToStart(root, w.value, path);
    }
  }

  /** The `tuple` loop over plain items leaves the state as it was exactly when each item from `i` on passes its element. */
  lemma {:induction false} TupleItemsPass(fuel: nat, env: Env, data: seq<Value>, items: seq<Ty>, i: nat,
                                          path: seq<string>, root: Root)
    requires i <= |items|
    requires forall m :: i <= m < |items| ==> PlainItem(items[m])
    ensures TupleItems(fuel, env, data, items, i, path, root) == Ok(root)
            <==> forall m :: i <= m < |items| ==> Walk(fuel, env, ElementAt(data, m), items[m], path, root) == Ok(root)
    decreases |items| - i
  {
    if i < |items| {
      assert TupleItems(fuel, env, data, items, i + 1, path, root) == Ok(root)
             <==> forall m :: i + 1 <= m < |items| ==> Walk(fuel, env, ElementAt(data, m), items[m], path, root) == Ok(root) by {
        TupleItemsPass(fuel, env, data, items, i + 1, path, root);
      }
      TupleStep(fuel, env, data, items, i, path, root);
    }
  }

  /**
   * `tuple(items)` without rest items reports a datum that is not an array,
   * and passes an array exactly when item `i` passes element `i` (undefined
   * past the end of the array) for every `i`, all at the same path.
   */
  lemma TuplePassesIffEveryItemPasses(fuel: nat, env: Env, d: Value, id: Id, items: seq<Ty>, path: seq<string>, root: Root)
    requires forall m :: 0 <= m < |items| ==> PlainItem(items[m])
    ensures !IsArray(env.heap, d) ==>
              Walk(fuel + 1, env, d, Fn(id, Tuple(items)), path, root)
              == Ok(Push(root, path, [Datum(d), Text("is not tuple"), TypeList(items)]))
    ensures IsArray(env.heap, d) ==>
              (Walk(fuel + 1, env, d, Fn(id, Tuple(items)), path, root) == Ok(root)
               <==> forall m :: 0 <= m < |items| ==>
                      Walk(fuel, env, ElementAt(env.heap[d.addr].items, m), items[m], path, root) == Ok(root))
  {
    if IsArray(env.heap, d) {
      TupleItemsPass(fuel, env, env.heap[d.addr].items, items, 0, path, root);
    }
  }

  /** The loop over one plain key: the property is walked and the key marked matched. */
  lemma PlainKeyStep(fuel: nat, env: Env, d: Value, k: string, t: Ty, path: seq<string>, s: Scan)
    requires !Utils.IsControlKey(k) && !Utils.IsPatternKey(k)
    ensures var key := Utils.UnescapeControlKey(k);
            var w := Walk(fuel, env, Get(env.heap, d, key), t, path + [key], s.root);
            var r := ObjectLoop(fuel, env, d, [Entry(k, t)], 0, path, s);
            (r.Ok? <==> w.Ok?) && (r.Ok? ==> r.value == Scan(w.value, s.matched + {key}, s.rest))
  {
  }

  /**
   * An object type with one plain key `k` walks the datum's property under
   * the unescaped key (undefined when absent) at `path + [key]`; the datum's
   * other keys are not looked at.
   */
  lemma PlainKeyIsWalked(fuel: nat, env: Env, d: Value, id: Id, k: string, t: Ty, path: seq<string>, root: Root)
    requires !Utils.IsControlKey(k) && !Utils.IsPatternKey(k) && IsObjectLike(d)
    requires !(DataId(d) in root.visited && TypeId(id) in root.visited)
    ensures var key := Utils.UnescapeControlKey(k);
            var inner := root.(visited := root.visited + {DataId(d), TypeId(id)});
            var r := Walk(fuel + 2, env, d, Shape(id, [Entry(k, t)]), path, root);
            var w := Walk(fuel + 1, env, Get(env.heap, d, key), t, path + [key], inner);
            (r.Ok? <==> w.Ok?) && (r.Ok? ==> r.value == w.value.(visited := root.visited))
  {
    var inner := root.(visited := root.visited + {DataId(d), TypeId(id)});
    assert k != EXPORT_KEY by { assert Utils.IsControlKey(EXPORT_KEY); }
    assert EntryLookup([Entry(k, t)], EXPORT_KEY).None?;
    PlainKeyStep(fuel + 1, env, d, k, t, path, Scan(inner, {}, Void));
  }

  /** A control key other than `$rest`, `$definitions` and `$export` throws. */
  lemma UnknownControlKeyThrows(fuel: nat, env: Env, d: Value, id: Id, k: string, t: Ty, path: seq<string>, root: Root)
    requires Utils.IsControlKey(k) && k != REST_KEY && k != DEFINITIONS_KEY && k != EXPORT_KEY && IsObjectLike(d)
    requires !(DataId(d) in root.visited && TypeId(id) in root.visited)
    ensures Walk(fuel + 2, env, d, Shape(id, [Entry(k, t)]), path, root) == Fail(Thrown("unknown control key"))
  {
    var inner := root.(visited := root.visited + {DataId(d), TypeId(id)});
    assert EntryLookup([Entry(k, t)], EXPORT_KEY).None?;
    assert ObjectLoop(fuel + 1, env, d, [Entry(k, t)], 0, path, Scan(inner, {}, Void)) == Fail(Thrown("unknown control key"));
  }

  // ---------------------------------------------------------------------------
  //  Pattern keys, `$rest`, `$definitions` and open objects
  // ---------------------------------------------------------------------------

  /** A key of a pattern loop that the pattern matches: it is walked and marked, then the loop goes on. */
  lemma PatternStep(fuel: nat, env: Env, d: Value, ct: Ty, re: Regex, keys: seq<string>, j: nat,
                    path: seq<string>, s: Scan)
    requires j < |keys| && env.rx.test(re, keys[j])
    ensures var p := PatternLoop(fuel, env, d, ct, re, keys, j, path, s);
            var q := PatternLoop(fuel, env, d, ct, re, keys, j + 1, path, s.(matched := s.matched + {keys[j]}));
            (p.Ok? && p.value.root == s.root)
            <==> Walk(fuel, env, Get(env.heap, d, keys[j]), ct, path + [keys[j]], s.root) == Ok(s.root)
                 && q.Ok? && q.value.root == s.root
  {
    var w := Walk(fuel, env, Get(env.heap, d, keys[j]), ct, path + [keys[j]], s.root);
    if w.Ok? {
      PatternStepUnfold(fuel, env, d, ct, re, keys, j, path, s);
      var q := PatternLoop(fuel, env, d, ct, re, keys, j + 1, path, Scan(w.value, s.matched + {keys[j]}, s.rest));
      if q.Ok? && q.value.root == s.root {
        BackToStart(s.root, w.value, path + [keys[j]]);
      }
    }
  }

  /** The unfolding of one matched key, once its walk has succeeded. */
  lemma PatternStepUnfold(fuel: nat, env: Env, d: Value, ct: Ty, re: Regex, keys: seq<string>, j: nat,
                          path: seq<string>, s: Scan)
    requires j < |keys| && env.rx.test(re, keys[j])
    requires Walk(fuel, env, Get(env.heap, d, keys[j]), ct, path + [keys[j]], s.root).Ok?
    ensures var w := Walk(fuel, env, Get(env.heap, d, keys[j]), ct, path + [keys[j]], s.root).value;
            PatternLoop(fuel, env, d, ct, re, keys, j, path, s)
            == PatternLoop(fuel, env, d, ct, re, keys, j + 1, path, Scan(w, s.matched + {keys[j]}, s.rest))
  {
  }

  /**
   * A pattern loop leaves the state as it was exactly when every key from
   * `j` on that the pattern matches passes the pattern's type, walked at
   * `path + [key]`.
   */
  lemma {:induction false} PatternLoopPasses(fuel: nat, env: Env, d: Value, ct: Ty, re: Regex, keys: seq<string>, j: nat,
                                             path: seq<string>, s: Scan)
    requires j <= |keys|
    ensures var p := PatternLoop(fuel, env, d, ct, re, keys, j, path, s);
            (p.Ok? && p.value.root == s.root)
            <==> forall m :: j <= m < |keys| && env.rx.test(re, keys[m]) ==>
                   Walk(fuel, env, Get(env.heap, d, keys[m]), ct, path + [keys[m]], s.root) == Ok(s.root)
    decreases |keys| - j
  {
    if j < |keys| {
      if env.rx.test(re, keys[j]) {
        PatternLoopPasses(fuel, env, d, ct, re, keys, j + 1, path, s.(matched := s.matched + {keys[j]}));
        PatternStep(fuel, env, d, ct, re, keys, j, path, s);
      } else {
        PatternLoopPasses(fuel, env, d, ct, re, keys, j + 1, path, s);
      }
    }
  }

  /** One key of the `$rest` loop: an unmatched key is walked against the rest type, a matched one skipped. */
  lemma RestKeyStep(fuel: nat, env: Env, d: Value, rt: Ty, keys: seq<string>, j: nat, matched: set<string>,
                    path: seq<string>, root: Root)
    requires j < |keys|
    ensures RestLoop(fuel, env, d, rt, keys, j, matched, path, root) == Ok(root)
            <==> (keys[j] !in matched ==> Walk(fuel, env, Get(env.heap, d, keys[j]), rt, path + [keys[j]], root) == Ok(root))
                 && RestLoop(fuel, env, d, rt, keys, j + 1, matched, path, root) == Ok(root)
  {
    if keys[j] !in matched {
      var w := Walk(fuel, env, Get(env.heap, d, keys[j]), rt, path + [keys[j]], root);
      if w.Ok? {
        RestKeyUnfold(fuel, env, d, rt, keys, j, matched, path, root);
        if RestLoop(fuel, env, d, rt, keys, j + 1, matched, path, w.value) == Ok(root) {
          BackToStart(root, w.value, path + [keys[j]]);
        }
      }
    }
  }

  lemma RestKeyUnfold(fuel: nat, env: Env, d: Value, rt: Ty, keys: seq<string>, j: nat, matched: set<string>,
                      path: seq<string>, root: Root)
    requires j < |keys| && keys[j] !in matched
    requires Walk(fuel, env, Get(env.heap, d, keys[j]), rt, path + [keys[j]], root).Ok?
    ensures var w := Walk(fuel, env, Get(env.heap, d, keys[j]), rt, path + [keys[j]], root).value;
            RestLoop(fuel, env, d, rt, keys, j, matched, path, root)
            == RestLoop(fuel, env, d, rt, keys, j + 1, matched, path, w)
  {
  }

  /**
   * The `$rest` loop leaves the state as it was exactly when every key from
   * `j` on that no other key matched passes the rest type at `path + [key]`.
   */
  lemma {:induction false} RestLoopPasses(fuel: nat, env: Env, d: Value, rt: Ty, keys: seq<string>, j: nat,
                                          matched: set<string>, path: seq<string>, root: Root)
    requires j <= |keys|
    ensures RestLoop(fuel, env, d, rt, keys, j, matched, path, root) == Ok(root)
            <==> forall m :: j <= m < |keys| && keys[m] !in matched ==>
                   Walk(fuel, env, Get(env.heap, d, keys[m]), rt, path + [keys[m]], root) == Ok(root)
    decreases |keys| - j
  {
    if j < |keys| {
      RestLoopPasses(fuel, env, d, rt, keys, j + 1, matched, path, root);
      RestKeyStep(fuel, env, d, rt, keys, j, matched, path, root);
    }
  }

  /** What `Walk` makes of an object type whose key loop ends without a rest type. */
  lemma ShapeWalk(fuel: nat, env: Env, d: Value, id: Id, es: seq<Entry>, path: seq<string>, root: Root)
    requires EntryLookup(es, EXPORT_KEY).None? && IsObjectLike(d)
    requires !(DataId(d) in root.visited && TypeId(id) in root.visited)
    ensures var inner := root.(visited := root.visited + {DataId(d), TypeId(id)});
            var s := ObjectLoop(fuel + 1, env, d, es, 0, path, Scan(inner, {}, Void));
            s.Ok? && !TruthyTy(s.value.rest) ==>
              (Walk(fuel + 2, env, d, Shape(id, es), path, root) == Ok(root) <==> s.value.root == inner)
  {
    var inner := root.(visited := root.visited + {DataId(d), TypeId(id)});
    var s := ObjectLoop(fuel + 1, env, d, es, 0, path, Scan(inner, {}, Void));
    if s.Ok? && !TruthyTy(s.value.rest) {
      assert Walk(fuel + 2, env, d, Shape(id, es), path, root) == Ok(s.value.root.(visited := root.visited));
    }
  }

  /**
   * An object type with one pattern key `/body/flags`: a key that is not a
   * regular expression, or does not compile, throws; otherwise the datum passes exactly when
   * every one of its keys the pattern matches passes the key's type, walked
   * at `path + [key]`.
   */
  lemma PatternKeyWalksMatches(fuel: nat, env: Env, d: Value, id: Id, k: string, t: Ty, path: seq<string>, root: Root)
    requires Utils.IsPatternKey(k) && IsObjectLike(d)
    requires !(DataId(d) in root.visited && TypeId(id) in root.visited)
    ensures Utils.MatchKeyPattern(k).None? ==>
              Walk(fuel + 2, env, d, Shape(id, [Entry(k, t)]), path, root) == Fail(Thrown("pattern key is not a valid RegExp"))
    ensures Utils.MatchKeyPattern(k).Some? && !env.rx.compiles(Utils.MatchKeyPattern(k).value.body, Utils.MatchKeyPattern(k).value.flags) ==>
              Walk(fuel + 2, env, d, Shape(id, [Entry(k, t)]), path, root)
              == Fail(Thrown("Invalid regular expression: /" + Utils.MatchKeyPattern(k).value.body + "/"))
    ensures Utils.MatchKeyPattern(k).Some? && env.rx.compiles(Utils.MatchKeyPattern(k).value.body, Utils.MatchKeyPattern(k).value.flags) ==>
              var inner := root.(visited := root.visited + {DataId(d), TypeId(id)});
              var re := Regex(Utils.MatchKeyPattern(k).value.body, Utils.MatchKeyPattern(k).value.flags);
              var keys := Keys(env.heap, d);
              (Walk(fuel + 2, env, d, Shape(id, [Entry(k, t)]), path, root) == Ok(root)
               <==> forall m :: 0 <= m < |keys| && env.rx.test(re, keys[m]) ==>
                      Walk(fuel + 1, env, Get(env.heap, d, keys[m]), t, path + [keys[m]], inner) == Ok(inner))
  {
    assert k != EXPORT_KEY by { assert EXPORT_KEY[0] == '$'; }
    assert EntryLookup([Entry(k, t)], EXPORT_KEY).None?;
    var inner := root.(visited := root.visited + {DataId(d), TypeId(id)});
    PatternKeyStep(fuel + 1, env, d, k, t, path, Scan(inner, {}, Void));
    match Utils.MatchKeyPattern(k)
    case None =>
    case Some(kp) =>
      if env.rx.compiles(kp.body, kp.flags) {
        PatternLoopPasses(fuel + 1, env, d, t, Regex(kp.body, kp.flags), Keys(env.heap, d), 0, path, Scan(inner, {}, Void));
        ShapeWalk(fuel, env, d, id, [Entry(k, t)], path, root);
      }
  }

  /** The key loop over one pattern key is the pattern loop over the datum's keys. */
  lemma PatternKeyStep(fuel: nat, env: Env, d: Value, k: string, t: Ty, path: seq<string>, s: Scan)
    requires Utils.IsPatternKey(k)
    ensures Utils.MatchKeyPattern(k).None? ==>
              ObjectLoop(fuel, env, d, [Entry(k, t)], 0, path, s) == Fail(Thrown("pattern key is not a valid RegExp"))
    ensures Utils.MatchKeyPattern(k).Some? && !env.rx.compiles(Utils.MatchKeyPattern(k).value.body, Utils.MatchKeyPattern(k).value.flags) ==>
              ObjectLoop(fuel, env, d, [Entry(k, t)], 0, path, s)
              == Fail(Thrown("Invalid regular expression: /" + Utils.MatchKeyPattern(k).value.body + "/"))
    ensures Utils.MatchKeyPattern(k).Some? && env.rx.compiles(Utils.MatchKeyPattern(k).value.body, Utils.MatchKeyPattern(k).value.flags) ==>
              ObjectLoop(fuel, env, d, [Entry(k, t)], 0, path, s)
              == PatternLoop(fuel, env, d, t, Regex(Utils.MatchKeyPattern(k).value.body, Utils.MatchKeyPattern(k).value.flags),
                             Keys(env.heap, d), 0, path, s)
  {
    assert !Utils.IsControlKey(k);
    match Utils.MatchKeyPattern(k)
    case None =>
    case Some(kp) =>
      if env.rx.compiles(kp.body, kp.flags) {
        var p := PatternLoop(fuel, env, d, t, Regex(kp.body, kp.flags), Keys(env.heap, d), 0, path, s);
        if p.Ok? {
          assert ObjectLoop(fuel, env, d, [Entry(k, t)], 1, path, p.value) == Ok(p.value);
        }
      }
  }

  /**
   * An object type of only `$rest`: the datum passes exactly when each of
   * its keys passes the rest type, walked at `path + [key]`.
   */
  lemma RestWalksUnmatched(fuel: nat, env: Env, d: Value, id: Id, rt: Ty, path: seq<string>, root: Root)
    requires TruthyTy(rt) && IsObjectLike(d)
    requires !(DataId(d) in root.visited && TypeId(id) in root.visited)
    ensures var inner := root.(visited := root.visited + {DataId(d), TypeId(id)});
            var keys := Keys(env.heap, d);
            Walk(fuel + 2, env, d, Shape(id, [Entry(REST_KEY, rt)]), path, root) == Ok(root)
            <==> forall m :: 0 <= m < |keys| ==>
                   Walk(fuel + 1, env, Get(env.heap, d, keys[m]), rt, path + [keys[m]], inner) == Ok(inner)
  {
    var inner := root.(visited := root.visited + {DataId(d), TypeId(id)});
    var keys := Keys(env.heap, d);
    assert EntryLookup([Entry(REST_KEY, rt)], EXPORT_KEY).None?;
    assert ObjectLoop(fuel + 1, env, d, [Entry(REST_KEY, rt)], 0, path, Scan(inner, {}, Void)) == Ok(Scan(inner, {}, rt));
    RestLoopPasses(fuel + 1, env, d, rt, keys, 0, {}, path, inner);
    var r := RestLoop(fuel + 1, env, d, rt, keys, 0, {}, path, inner);
    assert ValidateObject(fuel + 1, env, d, Shape(id, [Entry(REST_KEY, rt)]), path, inner) == r;
    if r.Ok? && r.value.(visited := root.visited) == root {
      assert r.value == inner;
    }
  }

  /**
   * An object type of one plain key `k` and `$rest`: the datum passes exactly
   * when its property under the unescaped key passes `t`, and each of its
   * other keys passes the rest type, every one walked at `path + [key]`.
   */
  lemma PlainKeyWithRestPasses(fuel: nat, env: Env, d: Value, id: Id, k: string, t: Ty, rt: Ty, path: seq<string>, root: Root)
    requires !Utils.IsControlKey(k) && !Utils.IsPatternKey(k) && TruthyTy(rt) && IsObjectLike(d)
    requires !(DataId(d) in root.visited && TypeId(id) in root.visited)
    ensures var key := Utils.UnescapeControlKey(k);
            var inner := root.(visited := root.visited + {DataId(d), TypeId(id)});
            var keys := Keys(env.heap, d);
            Walk(fuel + 2, env, d, Shape(id, [Entry(k, t), Entry(REST_KEY, rt)]), path, root) == Ok(root)
            <==> Walk(fuel + 1, env, Get(env.heap, d, key), t, path + [key], inner) == Ok(inner)
                 && forall m :: 0 <= m < |keys| && keys[m] != key ==>
                      Walk(fuel + 1, env, Get(env.heap, d, keys[m]), rt, path + [keys[m]], inner) == Ok(inner)
  {
    var inner := root.(visited := root.visited + {DataId(d), TypeId(id)});
    var es := [Entry(k, t), Entry(REST_KEY, rt)];
    ShapeWalkUnfold(fuel, env, d, id, es, path, root);
    PlainKeyWithRestObject(fuel + 1, env, d, id, k, t, rt, path, inner);
    var v := ValidateObject(fuel + 1, env, d, Shape(id, es), path, inner);
    if v.Ok? && v.value.(visited := root.visited) == root {
      assert v.value == inner;
    }
  }

  /** The object check behind `PlainKeyWithRestPasses`, at the visits the walk has already extended. */
  lemma PlainKeyWithRestObject(fuel: nat, env: Env, d: Value, id: Id, k: string, t: Ty, rt: Ty, path: seq<string>, inner: Root)
    requires !Utils.IsControlKey(k) && !Utils.IsPatternKey(k) && TruthyTy(rt) && IsObjectLike(d)
    ensures var key := Utils.UnescapeControlKey(k);
            var keys := Keys(env.heap, d);
            ValidateObject(fuel, env, d, Shape(id, [Entry(k, t), Entry(REST_KEY, rt)]), path, inner) == Ok(inner)
            <==> Walk(fuel, env, Get(env.heap, d, key), t, path + [key], inner) == Ok(inner)
                 && forall m :: 0 <= m < |keys| && keys[m] != key ==>
                      Walk(fuel, env, Get(env.heap, d, keys[m]), rt, path + [keys[m]], inner) == Ok(inner)
  {
    var key := Utils.UnescapeControlKey(k);
    var keys := Keys(env.heap, d);
    var es := [Entry(k, t), Entry(REST_KEY, rt)];
    assert k != EXPORT_KEY by { assert Utils.IsControlKey(EXPORT_KEY); }
    assert es[1..] == [Entry(REST_KEY, rt)];
    assert EntryLookup([Entry(REST_KEY, rt)], EXPORT_KEY).None?;
    assert EntryLookup(es, EXPORT_KEY).None?;
    PlainKeyThenRestStep(fuel, env, d, k, t, rt, path, Scan(inner, {}, Void));
    var w := Walk(fuel, env, Get(env.heap, d, key), t, path + [key], inner);
    if w.Ok? {
      var r := w.value;
      var rl := RestLoop(fuel, env, d, rt, keys, 0, {key}, path, r);
      assert {} + {key} == {key};
      assert ValidateObject(fuel, env, d, Shape(id, es), path, inner) == rl;
      RestLoopPasses(fuel, env, d, rt, keys, 0, {key}, path, inner);
      if rl == Ok(inner) {
        BackToStart(inner, r, path);
      }
    }
  }


  /** `Walk` on an object type it has not visited with this datum: the object check one level down, visits restored. */
  lemma ShapeWalkUnfold(fuel: nat, env: Env, d: Value, id: Id, es: seq<Entry>, path: seq<string>, root: Root)
    requires !(DataId(d) in root.visited && TypeId(id) in root.visited)
    ensures var inner := root.(visited := root.visited + {DataId(d), TypeId(id)});
            var v := ValidateObject(fuel + 1, env, d, Shape(id, es), path, inner);
            Walk(fuel + 2, env, d, Shape(id, es), path, root) == if v.Ok? then Ok(v.value.(visited := root.visited)) else v
  {
  }

  /** The key loop over a plain key then `$rest`: the property is walked, the key marked, the rest type kept. */
  lemma PlainKeyThenRestStep(fuel: nat, env: Env, d: Value, k: string, t: Ty, rt: Ty, path: seq<string>, s: Scan)
    requires !Utils.IsControlKey(k) && !Utils.IsPatternKey(k)
    ensures var key := Utils.UnescapeControlKey(k);
            var w := Walk(fuel, env, Get(env.heap, d, key), t, path + [key], s.root);
            var r := ObjectLoop(fuel, env, d, [Entry(k, t), Entry(REST_KEY, rt)], 0, path, s);
            (r.Ok? <==> w.Ok?) && (r.Ok? ==> r.value == Scan(w.value, s.matched + {key}, rt))
  {
    var key := Utils.UnescapeControlKey(k);
    var es := [Entry(k, t), Entry(REST_KEY, rt)];
    var w := Walk(fuel, env, Get(env.heap, d, key), t, path + [key], s.root);
    if w.Ok? {
      var s1 := Scan(w.value, s.matched + {key}, s.rest);
      assert ObjectLoop(fuel, env, d, es, 2, path, s1.(rest := rt)) == Ok(s1.(rest := rt));
      assert ObjectLoop(fuel, env, d, es, 1, path, s1) == Ok(s1.(rest := rt));
    }
  }


  /**
   * Without `$rest`, an object type validates an object datum by its own
   * keys alone: the datum's other keys are never looked at.
   */
  lemma ExtraKeysOpenWithoutRest(fuel: nat, env: Env, d: Value, id: Id, es: seq<Entry>, path: seq<string>, root: Root)
    requires forall i :: 0 <= i < |es| ==> es[i].key != REST_KEY
    requires EntryLookup(es, EXPORT_KEY).None? && IsObjectLike(d)
    ensures var s := ObjectLoop(fuel, env, d, es, 0, path, Scan(root, {}, Void));
            ValidateObject(fuel, env, d, Shape(id, es), path, root) == (if s.Ok? then Ok(s.value.root) else Fail(s.failure))
  {
  }

  /** An object type with no keys accepts every object, whatever keys it has. */
  lemma EmptyShapeAcceptsAnyObject(fuel: nat, env: Env, d: Value, id: Id, path: seq<string>, root: Root)
    requires IsObjectLike(d)
    ensures Walk(fuel + 2, env, d, Shape(id, []), path, root) == Ok(root)
  {
    var inner := root.(visited := root.visited + {DataId(d), TypeId(id)});
    assert ObjectLoop(fuel + 1, env, d, [], 0, path, Scan(inner, {}, Void)) == Ok(Scan(inner, {}, Void));
    assert ValidateObject(fuel + 1, env, d, Shape(id, []), path, inner) == Ok(inner);
  }

  /** An entry put in front of the key list shifts the loop by one place and changes nothing else. */
  lemma {:induction false} ObjectLoopShift(fuel: nat, env: Env, d: Value, e: Entry, es: seq<Entry>, i: nat,
                                           path: seq<string>, s: Scan)
    requires i <= |es|
    ensures ObjectLoop(fuel, env, d, [e] + es, i + 1, path, s) == ObjectLoop(fuel, env, d, es, i, path, s)
    decreases |es| - i
  {
    if i < |es| {
      var shifted := [e] + es;
      assert shifted[i + 1] == es[i];
      var k := es[i].key;
      if Utils.IsControlKey(k) {
        if k == REST_KEY {
          ObjectLoopShift(fuel, env, d, e, es, i + 1, path, s.(rest := es[i].t));
        } else if k == DEFINITIONS_KEY {
          ObjectLoopShift(fuel, env, d, e, es, i + 1, path, s);
        }
      } else if Utils.IsPatternKey(k) {
        match Utils.MatchKeyPattern(k)
        case None =>
        case Some(kp) =>
          var s2 := PatternLoop(fuel, env, d, es[i].t, Regex(kp.body, kp.flags), Keys(env.heap, d), 0, path, s);
          if s2.Ok? {
            ObjectLoopShift(fuel, env, d, e, es, i + 1, path, s2.value);
          }
      } else {
        var key := Utils.UnescapeControlKey(k);
        var r := Walk(fuel, env, Get(env.heap, d, key), es[i].t, path + [key], s.root);
        if r.Ok? {
          ObjectLoopShift(fuel, env, d, e, es, i + 1, path, Scan(r.value, s.matched + {key}, s.rest));
        }
      }
    }
  }

  /** `$definitions` adds no check: an object type validates an object datum as it would without it. */
  lemma DefinitionsKeyIgnored(fuel: nat, env: Env, d: Value, id: Id, dt: Ty, es: seq<Entry>, path: seq<string>, root: Root)
    requires IsObjectLike(d)
    ensures ValidateObject(fuel, env, d, Shape(id, [Entry(DEFINITIONS_KEY, dt)] + es), path, root)
            == ValidateObject(fuel, env, d, Shape(id, es), path, root)
  {
    var es' := [Entry(DEFINITIONS_KEY, dt)] + es;
    assert es'[1..] == es;
    assert EntryLookup(es', EXPORT_KEY) == EntryLookup(es, EXPORT_KEY);
    ObjectLoopShift(fuel, env, d, Entry(DEFINITIONS_KEY, dt), es, 0, path, Scan(root, {}, Void));
    assert ObjectLoop(fuel, env, d, es', 0, path, Scan(root, {}, Void)) == ObjectLoop(fuel, env, d, es', 1, path, Scan(root, {}, Void));
  }

  /** A definition found (and truthy) in the declarations validates the datum as the declared type does. */
  lemma DeclaredDefinitionIsWalked(fuel: nat, env: Env, d: Value, id: Id, p: seq<string>, shown: string, path: seq<string>,
                                    root: Root)
    requires IsObjectLikeTy(root.declares)
    requires GetPath(root.declares, p).Some? && TruthyTy(GetPath(root.declares, p).value)
    ensures Walk(fuel + 1, env, d, Fn(id, Definition(p, shown)), path, root) == Walk(fuel, env, d, GetPath(root.declares, p).value, path, root)
  {
    FnWalk(fuel, env, d, id, Definition(p, shown), path, root);
    assert Apply(fuel, env, d, id, Definition(p, shown), path, root) == ApplyDefinition(fuel, env, d, p, shown, path, root);
  }
}
