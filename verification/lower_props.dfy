/*******************************************************************************
 *  Properties of the lowering compiler (src/grammar/transform/ast-lier.ts),
 *  each stated against a definition independent of the handler that
 *  computes it.
 *******************************************************************************/

module LoweringProps {
  import opened Outcomes
  import opened Values
  import opened Types
  import opened Ast
  import opened CompileTime
  import opened Lowering
  import Expressions

  // ---------------------------------------------------------------------------
  //  Enum numbering
  // ---------------------------------------------------------------------------

  /** The members of an enum: its items without the comments. */
  function Members(items: seq<Node>): (ms: seq<Node>)
    ensures |ms| <= |items|
  {
    if items == [] then []
    else (if items[0].CommentN? then [] else [items[0]]) + Members(items[1..])
  }

  predicate ResetsKnown(items: seq<Node>) {
    forall i :: 0 <= i < |items| ==> EnumReset(items[i]).Ok?
  }

  /** The number a member takes when the counter stands at `counter` (a member that cannot be read never is). */
  function Take(m: Node, counter: int): int {
    match EnumReset(m)
    case Ok(Some(k)) => k
    case _ => counter
  }

  /**
   * The number of member `j`, position by position: the first member takes
   * `start` unless it resets the counter, and each later one takes one more
   * than its predecessor unless it resets the counter.
   */
  function NumberAt(ms: seq<Node>, start: int, j: nat): int
    requires j < |ms|
  {
    if j == 0 then Take(ms[0], start) else Take(ms[j], NumberAt(ms, start, j - 1) + 1)
  }

  lemma {:induction false} NumberAtShift(m: Node, ms: seq<Node>, start: int, j: nat)
    requires j < |ms|
    ensures NumberAt([m] + ms, start, j + 1) == NumberAt(ms, Take(m, start) + 1, j)
  {
    var s := [m] + ms;
    assert s[j + 1] == ms[j];
    if j == 0 {
      assert s[0] == m;
    } else {
      NumberAtShift(m, ms, start, j - 1);
    }
  }

  lemma {:induction false} EnumNumbersFrom(items: seq<Node>, i: nat, index: int)
    requires i <= |items| && ResetsKnown(items)
    ensures var ms := Members(items[i..]);
            var r := EnumNumbers(items, i, index);
            r.Ok? && |r.value| == |ms| && forall j :: 0 <= j < |ms| ==> r.value[j] == Lit(Num(NumberAt(ms, index, j)))
    decreases |items| - i
  {
    if i < |items| {
      assert items[i..][0] == items[i] && items[i..][1..] == items[i + 1..];
      if items[i].CommentN? {
        assert Members(items[i..]) == Members(items[i + 1..]);
        EnumNumbersFrom(items, i + 1, index);
      } else {
        var k := Take(items[i], index);
        EnumNumbersFrom(items, i + 1, k + 1);
        var ms' := Members(items[i + 1..]);
        assert Members(items[i..]) == [items[i]] + ms';
        EnumStep(items, i, index, ms');
      }
    }
  }

  /** One member's step of the numbering: its number, then the rest counted on from it. */
  lemma {:induction false} EnumStep(items: seq<Node>, i: nat, index: int, ms': seq<Node>)
    requires i < |items| && EnumReset(items[i]).Ok? && !items[i].CommentN?
    requires ms' == Members(items[i + 1..])
    requires var rest := EnumNumbers(items, i + 1, Take(items[i], index) + 1);
             rest.Ok? && |rest.value| == |ms'|
             && forall j :: 0 <= j < |ms'| ==> rest.value[j] == Lit(Num(NumberAt(ms', Take(items[i], index) + 1, j)))
    ensures var ms := [items[i]] + ms';
            var r := EnumNumbers(items, i, index);
            r.Ok? && |r.value| == |ms| && forall j :: 0 <= j < |ms| ==> r.value[j] == Lit(Num(NumberAt(ms, index, j)))
  {
    var k := Take(items[i], index);
    var rest := EnumNumbers(items, i + 1, k + 1).value;
    assert EnumNumbers(items, i, index).value == [Lit(Num(k))] + rest;
    NumbersShift(items[i], ms', index, rest);
  }

  /** A member's number put in front of the numbers of the members after it, counted on from it. */
  lemma NumbersShift(m: Node, ms': seq<Node>, index: int, rest: seq<Ty>)
    requires |rest| == |ms'|
    requires forall j {:trigger rest[j]} :: 0 <= j < |ms'| ==> rest[j] == Lit(Num(NumberAt(ms', Take(m, index) + 1, j)))
    ensures forall j {:trigger ([Lit(Num(Take(m, index)))] + rest)[j]} :: 0 <= j < |ms'| + 1 ==>
              ([Lit(Num(Take(m, index)))] + rest)[j] == Lit(Num(NumberAt([m] + ms', index, j)))
  {
    var ms := [m] + ms';
    var r := [Lit(Num(Take(m, index)))] + rest;
    forall j | 0 <= j < |ms|
      ensures r[j] == Lit(Num(NumberAt(ms, index, j)))
    {
      if j == 0 {
        assert ms[0] == m;
      } else {
        NumberAtShift(m, ms', index, j - 1);
        assert r[j] == rest[j - 1];
      }
    }
  }

  /**
   * Enum numbering: comments are skipped, each member counts on from the
   * previous one starting at 0, and a member with a truthy value resets the
   * count to that value.
   */
  lemma EnumNumbering(items: seq<Node>)
    requires ResetsKnown(items)
    ensures var ms := Members(items);
            var r := EnumNumbers(items, 0, 0);
            r.Ok? && |r.value| == |ms| && forall j :: 0 <= j < |ms| ==> r.value[j] == Lit(Num(NumberAt(ms, 0, j)))
  {
    EnumNumbersFrom(items, 0, 0);
    assert items[0..] == items;
  }

  /** Without resets, the members are numbered 0, 1, 2, … */
  lemma EnumCountsFromZero(items: seq<Node>)
    requires forall i :: 0 <= i < |items| ==> EnumReset(items[i]) == Ok(None)
    ensures var r := EnumNumbers(items, 0, 0);
            r.Ok? && |r.value| == |Members(items)| && forall j :: 0 <= j < |r.value| ==> r.value[j] == Lit(Num(j))
  {
    EnumNumbering(items);
    MembersNoReset(items);
    var ms := Members(items);
    forall j | 0 <= j < |ms|
      ensures NumberAt(ms, 0, j) == j
    {
      CountsOn(ms, j);
    }
  }

  lemma {:induction false} CountsOn(ms: seq<Node>, j: nat)
    requires forall i :: 0 <= i < |ms| ==> EnumReset(ms[i]) == Ok(None)
    requires j < |ms|
    ensures NumberAt(ms, 0, j) == j
  {
    if j > 0 {
      CountsOn(ms, j - 1);
    }
  }

  lemma {:induction false} MembersNoReset(items: seq<Node>)
    requires forall i :: 0 <= i < |items| ==> EnumReset(items[i]) == Ok(None)
    ensures forall j :: 0 <= j < |Members(items)| ==> EnumReset(Members(items)[j]) == Ok(None)
  {
    if items != [] {
      assert forall i :: 0 <= i < |items[1..]| ==> items[1..][i] == items[i + 1];
      MembersNoReset(items[1..]);
    }
  }

  /** The enum handler numbers an enum in the closed form above, as an `enum` combinator. */
  lemma EnumLowering(pick: Picker, items: seq<Node>, st: LState)
    requires ResetsKnown(items)
    ensures var r := Lower(pick, EnumN(items), st);
            r.Ok? && r.value.t.Fn? && r.value.t.c.Enum? && |r.value.t.c.vals| == |Members(items)|
            && forall j :: 0 <= j < |Members(items)| ==> r.value.t.c.vals[j] == Lit(Num(NumberAt(Members(items), 0, j)))
  {
    EnumNumbering(items);
  }

  // ---------------------------------------------------------------------------
  //  Decorators
  // ---------------------------------------------------------------------------

  /** The names of the factories of one argument a decorator without arguments can name. */
  predicate Wrapper(name: string) {
    name in {"optional", "not", "rest", "eq"}
  }

  function Wrap(name: string, t: Ty): Comb
    requires Wrapper(name)
  {
    if name == "optional" then Optional(t) else if name == "not" then Not(t)
    else if name == "rest" then Rest(t) else Eq(t)
  }

  /** A decorator `@f` without arguments that names a one-argument factory. */
  predicate PlainWrapper(d: Node) {
    d.DecoratorN? && d.args == [] && Wrapper(d.name)
  }

  predicate PlainWrappers(ds: seq<Node>) {
    forall k :: 0 <= k < |ds| ==> PlainWrapper(ds[k])
  }

  /**
   * The value decorators `ds[j..k]` make of `v`, written outside in: the
   * last decorator is the outermost combinator (and took the last identity).
   */
  function Nest(ds: seq<Node>, j: nat, k: nat, v: Ty, id: Id): Ty
    requires j <= k <= |ds| && PlainWrappers(ds)
    decreases k
  {
    if k == j then v else Fn(id + (k - 1 - j), Wrap(ds[k - 1].name, Nest(ds, j, k - 1, v, id)))
  }

  lemma {:induction false} NestShift(ds: seq<Node>, j: nat, k: nat, v: Ty, id: Id)
    requires j < k <= |ds| && PlainWrappers(ds)
    ensures Nest(ds, j, k, v, id) == Nest(ds, j + 1, k, Fn(id, Wrap(ds[j].name, v)), id + 1)
    decreases k
  {
    if k > j + 1 {
      NestShift(ds, j, k - 1, v, id);
    }
  }

  /** A plain wrapper decorator `@f` makes the one-argument combinator `f(value)`. */
  lemma WrapperStep(pick: Picker, d: Node, v: Ty, st: LState)
    requires PlainWrapper(d)
    ensures Decorate(pick, d, v, st) == Ok(Lowered(Fn(st.next, Wrap(d.name, v)), Bump(st)))
  {
    assert Builtin(d.name) == Some(Factory(FactoryNamed(d.name).value));
    assert LowerEach(pick, d, 0, false, false, [], st) == Ok(LoweredList([], st));
  }

  /**
   * A decorator `@f(a…)` naming a factory calls it with its arguments
   * compiled in order, one value each, and the decorated value last; an
   * argument that fails to compile fails the decorator.
   */
  lemma FactoryDecoratorCalls(pick: Picker, d: Node, v: Ty, st: LState)
    requires d.DecoratorN? && FactoryNamed(d.name).Some?
    ensures var a := LowerEach(pick, d, 0, false, false, [], st);
            a.Ok? ==> |a.value.ts| == |d.args|
                      && Decorate(pick, d, v, st) == Invoke(pick, Factory(FactoryNamed(d.name).value), a.value.ts + [v], a.value.st)
    ensures var a := LowerEach(pick, d, 0, false, false, [], st);
            a.Fail? ==> Decorate(pick, d, v, st) == Fail(a.failure)
  {
    assert Kids(d) == d.args;
    assert Builtin(d.name) == Some(Factory(FactoryNamed(d.name).value));
  }

  /** `@description(s)` on a value is `description(s, value)`: the decorated value is the last argument. */
  lemma DescriptionDecorator(pick: Picker, s: string, v: Ty, st: LState)
    ensures Decorate(pick, DecoratorN("description", [StrN(s)]), v, st)
         == Ok(Lowered(Fn(st.next, Description(Lit(Str(s)), v)), Bump(st)))
  {
    var d := DecoratorN("description", [StrN(s)]);
    OneStringArgument(pick, d, s, st);
    assert FactoryNamed("description") == Some(DescriptionF);
    FactoryDecoratorCalls(pick, d, v, st);
    assert [Lit(Str(s))] + [v] == [Lit(Str(s)), v];
    DescriptionInvoked(pick, Lit(Str(s)), v, st);
  }

  /** The one string argument of a decorator compiles to its literal, in the same state. */
  lemma OneStringArgument(pick: Picker, d: Node, s: string, st: LState)
    requires d.DecoratorN? && d.args == [StrN(s)]
    ensures LowerEach(pick, d, 0, false, false, [], st) == Ok(LoweredList([Lit(Str(s))], st))
  {
    assert Kids(d) == [StrN(s)];
    assert Lower(pick, StrN(s), st) == Ok(Lowered(Lit(Str(s)), st));
    assert [] + [Lit(Str(s))] == [Lit(Str(s))];
    assert LowerEach(pick, d, 1, false, false, [Lit(Str(s))], st) == Ok(LoweredList([Lit(Str(s))], st));
    assert LowerEach(pick, d, 0, false, false, [], st) == LowerEachFrom(pick, d, 0, false, false, [], st);
  }

  /** `description(desc, inner)` called at compile time takes one identity and no draw. */
  lemma DescriptionInvoked(pick: Picker, desc: Ty, inner: Ty, st: LState)
    ensures Invoke(pick, Factory(DescriptionF), [desc, inner], st) == Ok(Lowered(Fn(st.next, Description(desc, inner)), Bump(st)))
  {
    assert FactoryComb(pick, DescriptionF, [desc, inner], st.draws) == Ok((Description(desc, inner), st.draws));
  }

  /** One plain wrapper decorator: the rest of the list applies to the wrapped value. */
  lemma DecoratorStep(pick: Picker, p: Node, j: nat, v: Ty, st: LState)
    requires p.PropertyN? && j < |p.decorators| && PlainWrappers(p.decorators)
    ensures LowerDecorators(pick, p, j, v, st) ==
              LowerDecorators(pick, p, j + 1, Fn(st.next, Wrap(p.decorators[j].name, v)), Bump(st))
  {
    WrapperStep(pick, p.decorators[j], v, st);
    assert LowerDecorators(pick, p, j, v, st) == DecorateFrom(pick, p, j, v, st);
  }

  /**
   * Decorators apply in the order written, each to the value the previous
   * ones produced, so the last one written is the outermost combinator.
   */
  lemma {:induction false} DecoratorsNest(pick: Picker, p: Node, j: nat, v: Ty, st: LState)
    requires p.PropertyN? && j <= |p.decorators| && PlainWrappers(p.decorators)
    ensures LowerDecorators(pick, p, j, v, st) ==
              Ok(Lowered(Nest(p.decorators, j, |p.decorators|, v, st.next),
                         st.(next := st.next + (|p.decorators| - j))))
    decreases |p.decorators| - j
  {
    var ds := p.decorators;
    if j < |ds| {
      DecoratorStep(pick, p, j, v, st);
      var w := Fn(st.next, Wrap(ds[j].name, v));
      DecoratorsNest(pick, p, j + 1, w, Bump(st));
      NestShift(ds, j, |ds|, v, st.next);
    }
  }

  /** `@a @b k?: T`: the decorators wrap the value in order, and `optional` goes outside them all. */
  lemma OptionalWrapsDecorators(pick: Picker, p: Node, st: LState)
    requires p.PropertyN? && p.key.IdentN? && p.optional && PlainWrappers(p.decorators)
    requires Lower(pick, p.body, st).Ok? && !Lower(pick, p.body, st).value.t.Packed?
    ensures var v := Lower(pick, p.body, st).value;
            var n := |p.decorators|;
            LowerProperty(pick, p, st) ==
              Ok(Property(p.key.name,
                          Fn(v.st.next + n, Optional(Nest(p.decorators, 0, n, v.t, v.st.next))),
                          v.st.(next := v.st.next + n + 1)))
  {
    var v := Lower(pick, p.body, st).value;
    DecoratorsNest(pick, p, 0, v.t, v.st);
  }

  // ---------------------------------------------------------------------------
  //  Members, identifiers and declarations
  // ---------------------------------------------------------------------------

  lemma PathStep(pick: Picker, k: string, st: LState)
    ensures Lower(pick, PathN(false, IdentN(k)), st) == Ok(Lowered(Lit(Str(k)), st))
  {
  }

  /** One child of a loop over the children: routed, unpacked if asked, and appended. */
  lemma EachStep(pick: Picker, n: Node, i: nat, unpack: bool, acc: seq<Ty>, st: LState)
    requires i < |Kids(n)| && Lower(pick, Kids(n)[i], st).Ok?
    ensures var v := Lower(pick, Kids(n)[i], st).value;
            var u := if unpack then Unpack(v.t, v.st) else v;
            LowerEach(pick, n, i, unpack, false, acc, st) == LowerEach(pick, n, i + 1, unpack, false, acc + [u.t], u.st)
  {
    assert LowerEach(pick, n, i, unpack, false, acc, st) == LowerEachFrom(pick, n, i, unpack, false, acc, st);
  }

  /** One step `.k` of a member path compiles to the string literal `k`. */
  lemma StepsRound(pick: Picker, n: Node, ks: seq<string>, i: nat, acc: seq<Ty>, st: LState)
    requires n.MemberN? && n.props == Steps(ks) && i < |ks|
    ensures LowerEach(pick, n, i, true, false, acc, st) == LowerEach(pick, n, i + 1, true, false, acc + [Lit(Str(ks[i]))], st)
  {
    assert Kids(n)[i] == PathN(false, IdentN(ks[i]));
    PathStep(pick, ks[i], st);
    EachStep(pick, n, i, true, acc, st);
  }

  lemma {:induction false} StepsLower(pick: Picker, n: Node, ks: seq<string>, i: nat, acc: seq<Ty>, st: LState)
    requires n.MemberN? && n.props == Steps(ks) && i <= |ks|
    ensures LowerEach(pick, n, i, true, false, acc, st) == Ok(LoweredList(acc + StrLits(ks[i..]), st))
    decreases |ks| - i
  {
    if i < |ks| {
      StepsRound(pick, n, ks, i, acc, st);
      StepsLower(pick, n, ks, i + 1, acc + [Lit(Str(ks[i]))], st);
      StrLitsStep(ks, i, acc);
    } else {
      assert Kids(n) == n.props;
      assert ks[i..] == [];
      assert StrLits([]) == [] && acc + [] == acc;
    }
  }

  /** The path of `x.k1.k2…` compiles to the keys `k1, k2, …`, in order and without allocating. */
  lemma MemberKeys(pick: Picker, n: Node, ks: seq<string>, st: LState)
    requires n.MemberN? && n.props == Steps(ks)
    ensures LowerEach(pick, n, 0, true, false, [], st) == Ok(LoweredList(StrLits(ks), st))
    ensures Texts(StrLits(ks)) == Ok(ks)
    ensures JoinedTexts(StrLits(ks)) == Ok(ks)
  {
    StepsLower(pick, n, ks, 0, [], st);
    assert ks[0..] == ks;
    StrLitsTexts(ks);
  }

  /**
   * `self.k1.k2…` compiles to a packed expression that, at validation time,
   * reads the path `k1.k2…` from the root datum.
   */
  lemma SelfMemberReadsPath(pick: Picker, ks: seq<string>, st: LState, h: Heap, root: Value)
    ensures var r := Lower(pick, MemberN(SelfN, Steps(ks)), st);
            r == Ok(Lowered(Packed(st.next, Expressions.PathExpr(ks)), Bump(st)))
            && Expressions.Eval(h, root, r.value.t.e) == Expressions.ReadPath(h, root, ks)
  {
    MemberKeys(pick, MemberN(SelfN, Steps(ks)), ks, st);
    assert Lower(pick, MemberN(SelfN, Steps(ks)), st) == LowerMember(pick, MemberN(SelfN, Steps(ks)), st);
    Expressions.EvalPath(h, root, ks);
  }

  /** `name.k1.k2…` on a name outside the combinator table compiles to `definition([name, k1, k2, …])`. */
  lemma NamedMemberIsDefinition(pick: Picker, name: string, ks: seq<string>, st: LState)
    requires !InTable(name)
    ensures Lower(pick, MemberN(IdentN(name), Steps(ks)), st) ==
              Ok(Lowered(Fn(st.next, Definition([name] + ks, JoinComma([name] + ks))), Bump(st)))
  {
    MemberKeys(pick, MemberN(IdentN(name), Steps(ks)), ks, st);
    NamedMemberLowers(pick, MemberN(IdentN(name), Steps(ks)), StrLits(ks), st);
  }

  /** A member access on a name outside the table, once its steps are compiled: the definition it makes. */
  lemma NamedMemberLowers(pick: Picker, n: Node, ts: seq<Ty>, st: LState)
    requires n.MemberN? && n.host.IdentN? && !InTable(n.host.name)
    requires LowerEach(pick, n, 0, true, false, [], st) == Ok(LoweredList(ts, st)) && Texts(ts).Ok?
    ensures Lower(pick, n, st) ==
              Ok(Lowered(Fn(st.next, Definition([n.host.name] + Texts(ts).value, JoinComma([n.host.name] + JoinedTexts(ts).value))),
                         Bump(st)))
  {
    assert Lower(pick, n, st) == LowerMember(pick, n, st);
  }

  /** A computed step `[null]` compiles to null. */
  lemma NullStepLowers(pick: Picker, st: LState)
    ensures Lower(pick, PathN(true, NullN), st) == Ok(Lowered(Lit(Null), st))
  {
    assert Lower(pick, NullN, st) == Ok(Lowered(Lit(Null), st));
  }

  /** The one step of a member access, compiled to an unpacked value without touching the state. */
  lemma OneStepLowered(pick: Picker, n: Node, v: Ty, st: LState)
    requires n.MemberN? && |n.props| == 1
    requires Lower(pick, n.props[0], st) == Ok(Lowered(v, st)) && Unpack(v, st) == Lowered(v, st)
    ensures LowerEach(pick, n, 0, true, false, [], st) == Ok(LoweredList([v], st))
  {
    assert Kids(n) == n.props;
    assert [] + [v] == [v];
    assert LowerEach(pick, n, 1, true, false, [v], st) == Ok(LoweredList([v], st));
    assert LowerEach(pick, n, 0, true, false, [], st) == LowerEachFrom(pick, n, 0, true, false, [], st);
  }

  /**
   * `name[null]` compiles to a definition looked up by the keys `name, "null"`
   * whose messages print the path as `name,`: an array prints a null step as
   * empty text.
   */
  lemma NullStepDefinition(pick: Picker, name: string, st: LState)
    requires !InTable(name)
    ensures Lower(pick, MemberN(IdentN(name), [PathN(true, NullN)]), st) ==
              Ok(Lowered(Fn(st.next, Definition([name, "null"], name + ",")), Bump(st)))
  {
    var n := MemberN(IdentN(name), [PathN(true, NullN)]);
    NullStepLowers(pick, st);
    assert Unpack(Lit(Null), st) == Lowered(Lit(Null), st);
    OneStepLowered(pick, n, Lit(Null), st);
    OneTexts(Lit(Null));
    assert [name] + ["null"] == [name, "null"] && [name] + [""] == [name, ""];
    assert JoinComma([name, ""]) == name + "," + JoinComma([""]);
    assert JoinComma([""]) == "" && name + "," + "" == name + ",";
    NamedMemberLowers(pick, n, [Lit(Null)], st);
  }

  /** An identifier is its entry in the combinator table, or a definition of that name. */
  lemma IdentifierLowering(pick: Picker, name: string, st: LState)
    ensures InTable(name) ==> Lower(pick, IdentN(name), st) == Ok(Lowered(Builtin(name).value, st))
    ensures !InTable(name) ==> Lower(pick, IdentN(name), st) == Ok(Lowered(Fn(st.next, Definition([name], name)), Bump(st)))
  {
  }

  /** A declaration stores the unpacked type at its path, where it reads back. */
  lemma DeclarationReadsBack(pick: Picker, path: seq<string>, body: Node, st: LState)
    requires st.declares.Shape? && path != []
    requires Lower(pick, DeclareN(path, body), st).Ok?
    ensures Lower(pick, body, st).Ok?
    ensures var v := Lower(pick, body, st).value;
            var u := Unpack(v.t, v.st).t;
            GetPath(Lower(pick, DeclareN(path, body), st).value.st.declares, path) == (if u == Void then None else Some(u))
  {
    DeclareStep(pick, path, body, st);
    var v := Lower(pick, body, st).value;
    var u := Unpack(v.t, v.st);
    SetThenGet(u.st.declares, path, u.t, u.st.next);
  }

  /** The declaration handler sets the unpacked body at the path in the table. */
  lemma DeclareStep(pick: Picker, path: seq<string>, body: Node, st: LState)
    requires Lower(pick, DeclareN(path, body), st).Ok?
    ensures Lower(pick, body, st).Ok?
    ensures var v := Lower(pick, body, st).value;
            var u := Unpack(v.t, v.st);
            SetPath(u.st.declares, path, u.t, u.st.next).Ok?
            && Lower(pick, DeclareN(path, body), st).value.st.declares == SetPath(u.st.declares, path, u.t, u.st.next).value.0
  {
    var n := DeclareN(path, body);
    assert Lower(pick, n, st) == LowerDeclare(pick, n, st);
    DeclareSets(pick, n, st);
  }

  lemma DeclareSets(pick: Picker, n: Node, st: LState)
    requires n.DeclareN? && LowerDeclare(pick, n, st).Ok?
    ensures Lower(pick, n.body, st).Ok?
    ensures var v := Lower(pick, n.body, st).value;
            var u := Unpack(v.t, v.st);
            SetPath(u.st.declares, n.path, u.t, u.st.next).Ok?
            && LowerDeclare(pick, n, st).value.st.declares == SetPath(u.st.declares, n.path, u.t, u.st.next).value.0
  {
  }

  // ---------------------------------------------------------------------------
  //  The entry point
  // ---------------------------------------------------------------------------

  lemma {:induction false} FirstElementPrefix(nodes: seq<Node>, more: seq<Node>)
    requires FirstElement(nodes).Some?
    ensures FirstElement(nodes + more) == FirstElement(nodes)
  {
    if !nodes[0].ElementN? {
      assert (nodes + more)[1..] == nodes[1..] + more;
      FirstElementPrefix(nodes[1..], more);
    }
  }

  /** Only the first element node is compiled: whatever follows it does not change the result. */
  lemma CompileIgnoresLaterNodes(pick: Picker, nodes: seq<Node>, more: seq<Node>)
    requires FirstElement(nodes).Some?
    ensures Compile(pick, nodes + more) == Compile(pick, nodes)
  {
    FirstElementPrefix(nodes, more);
    var k := FirstElement(nodes).value;
    assert (nodes + more)[k] == nodes[k];
  }
}
