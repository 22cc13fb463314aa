/*******************************************************************************
 *  Properties of the reference checker (src/grammar/check.ts): what it
 *  records for names and member paths, when its final pass accepts, and the
 *  two places where the checker as written departs from what it evidently
 *  intends.
 *******************************************************************************/

module CheckingProps {
  import opened Outcomes
  import opened Values
  import opened Types
  import opened Ast
  import opened CompileTime
  import opened Checking
  import Operators

  // ---------------------------------------------------------------------------
  //  Member paths
  // ---------------------------------------------------------------------------

  lemma PathRouted(variant: Variant, k: string, cx: Context)
    ensures Route(variant, PathN(false, IdentN(k)), cx) == Ok(Routed(Lit(Str(k)), cx))
  {
  }

  /** One child of a collecting loop: routed and appended. */
  lemma ValueStep(variant: Variant, n: Node, i: nat, acc: seq<Ty>, cx: Context)
    requires i < |Kids(n)| && Route(variant, Kids(n)[i], cx).Ok?
    ensures var k := Route(variant, Kids(n)[i], cx).value;
            RouteValues(variant, n, i, acc, cx) == RouteValues(variant, n, i + 1, acc + [k.v], k.cx)
  {
    assert RouteValues(variant, n, i, acc, cx) == RouteValuesFrom(variant, n, i, acc, cx);
  }

  /** One step `.k` of a member path routes to the string `k`. */
  lemma StepRound(variant: Variant, n: Node, ks: seq<string>, i: nat, acc: seq<Ty>, cx: Context)
    requires n.MemberN? && n.props == Steps(ks) && i < |ks|
    ensures RouteValues(variant, n, i, acc, cx) == RouteValues(variant, n, i + 1, acc + [Lit(Str(ks[i]))], cx)
  {
    assert Kids(n)[i] == PathN(false, IdentN(ks[i]));
    PathRouted(variant, ks[i], cx);
    ValueStep(variant, n, i, acc, cx);
  }

  /** The steps of `x.k1.k2…` route to their key strings and leave the context alone. */
  lemma {:induction false} StepsRouted(variant: Variant, n: Node, ks: seq<string>, i: nat, acc: seq<Ty>, cx: Context)
    requires n.MemberN? && n.props == Steps(ks) && i <= |ks|
    ensures RouteValues(variant, n, i, acc, cx) == Ok(RoutedList(acc + StrLits(ks[i..]), cx))
    decreases |ks| - i
  {
    if i < |ks| {
      StepRound(variant, n, ks, i, acc, cx);
      StepsRouted(variant, n, ks, i + 1, acc + [Lit(Str(ks[i]))], cx);
      StrLitsStep(ks, i, acc);
    } else {
      assert Kids(n) == n.props;
      assert ks[i..] == [];
      assert StrLits([]) == [] && acc + [] == acc;
    }
  }

  /** The path of `x.k1.k2…` routes to the keys `k1, k2, …`, in order. */
  lemma PathKeys(variant: Variant, n: Node, ks: seq<string>, cx: Context)
    requires n.MemberN? && n.props == Steps(ks)
    ensures RouteValues(variant, n, 0, [], cx) == Ok(RoutedList(StrLits(ks), cx))
    ensures Texts(StrLits(ks)) == Ok(ks)
    ensures JoinedTexts(StrLits(ks)) == Ok(ks)
  {
    StepsRouted(variant, n, ks, 0, [], cx);
    assert ks[0..] == ks && [] + StrLits(ks) == StrLits(ks);
    StrLitsTexts(ks);
  }

  /** A member access on a name outside the table, once its steps are routed: the use it records. */
  lemma NamedMemberRecords(variant: Variant, n: Node, vs: seq<Ty>, cx: Context, cx': Context)
    requires n.MemberN? && n.host.IdentN? && !InTable(n.host.name)
    requires RouteValues(variant, n, 0, [], cx) == Ok(RoutedList(vs, cx')) && Texts(vs).Ok?
    ensures var keys := Texts(vs).value;
            var shown := JoinedTexts(vs).value;
            Route(variant, n, cx)
              == Ok(Routed(Lit(Null), cx'.(using := RecordUse(cx'.using, Join("[]", [n.host.name] + shown),
                                                              KeyPath([n.host.name] + keys, [n.host.name] + shown)))))
  {
    assert Route(variant, n, cx) == CheckMember(variant, n, cx);
  }

  /** `name.k1.k2…` on a name outside the table records the whole path under its `[]`-joined key. */
  lemma MemberRecordsPath(variant: Variant, name: string, ks: seq<string>, cx: Context)
    requires !InTable(name)
    ensures Route(variant, MemberN(IdentN(name), Steps(ks)), cx)
         == Ok(Routed(Lit(Null), cx.(using := RecordUse(cx.using, Join("[]", [name] + ks), KeyPath([name] + ks, [name] + ks)))))
  {
    var n := MemberN(IdentN(name), Steps(ks));
    PathKeys(variant, n, ks, cx);
    NamedMemberRecords(variant, n, StrLits(ks), cx, cx);
  }

  /** `self.k1.k2…` is null and records nothing. */
  lemma SelfMemberRecordsNothing(variant: Variant, ks: seq<string>, cx: Context)
    ensures Route(variant, MemberN(SelfN, Steps(ks)), cx) == Ok(Routed(Lit(Null), cx))
  {
    PathKeys(variant, MemberN(SelfN, Steps(ks)), ks, cx);
  }

  // ---------------------------------------------------------------------------
  //  Operators and calls
  // ---------------------------------------------------------------------------

  /** An operator outside the 21 the grammar knows is refused once both operands are routed. */
  lemma UnknownOperatorThrows(variant: Variant, op: string, left: Node, right: Node, cx: Context)
    requires !Operators.IsBinaryOperator(op)
    requires Route(variant, left, cx).Ok?
    requires Route(variant, right, Route(variant, left, cx).value.cx).Ok?
    ensures Route(variant, BinaryN(op, left, right), cx) == Fail(Thrown("not implemented binary operator:" + op))
  {
  }

  /** An operator on two number literals gives the JavaScript result. */
  lemma NumbersCompute(variant: Variant, op: string, a: int, b: int, cx: Context)
    requires Operators.IsBinaryOperator(op) && op != "&&" && op != "||"
    requires Operators.Binary(op, Num(a), Num(b)).Ok?
    ensures var r := Route(variant, BinaryN(op, NumN(a), NumN(b)), cx);
            r.Ok? && r.value.cx == cx && PrimOf(r.value.v) == Some(Operators.Binary(op, Num(a), Num(b)).value)
  {
    var n := BinaryN(op, NumN(a), NumN(b));
    assert Route(variant, NumN(a), cx) == Ok(Routed(Lit(Num(a)), cx));
    assert Route(variant, NumN(b), cx) == Ok(Routed(Lit(Num(b)), cx));
    assert PrimOf(Lit(Num(a))) == Some(Num(a)) && PrimOf(Lit(Num(b))) == Some(Num(b));
    assert Route(variant, n, cx) == CheckBinary(variant, n, cx);
  }

  /** A callee that is not a function throws with its text. */
  lemma NonFunctionCallThrows(variant: Variant, callee: Node, args: seq<Node>, cx: Context)
    requires Route(variant, callee, cx).Ok?
    requires !IsFunction(Route(variant, callee, cx).value.v) && TextOf(Route(variant, callee, cx).value.v).Some?
    ensures Route(variant, CallN(callee, args), cx)
         == Fail(Thrown(TextOf(Route(variant, callee, cx).value.v).value + " is not function"))
  {
  }

  lemma IdentRouted(variant: Variant, name: string, cx: Context)
    ensures Route(variant, IdentN(name), cx) == Ok(CheckIdent(variant, name, cx))
  {
  }

  /** An identifier as written is null, so every call of a named factory throws. */
  lemma AsWrittenCallsThrow(name: string, args: seq<Node>, cx: Context)
    ensures Route(AsWritten, CallN(IdentN(name), args), cx) == Fail(Thrown("null is not function"))
  {
    IdentRouted(AsWritten, name, cx);
    NullCallThrows(AsWritten, IdentN(name), args, cx);
  }

  /** A callee that routes to null throws `null is not function`. */
  lemma NullCallThrows(variant: Variant, callee: Node, args: seq<Node>, cx: Context)
    requires Route(variant, callee, cx).Ok? && Route(variant, callee, cx).value.v == Lit(Null)
    ensures Route(variant, CallN(callee, args), cx) == Fail(Thrown("null is not function"))
  {
    assert TextOf(Lit(Null)) == Some("null");
    assert Texts([]) == Ok([]) && JoinedTexts([]) == Ok([]);
    assert ["null"] + [] == ["null"];
    assert "null" + " is not function" == "null is not function";
    NonFunctionCallThrows(variant, callee, args, cx);
  }

  /** Corrected, a call of a factory of the table routes its arguments and is accepted. */
  lemma CorrectedFactoryCallRoutesArgs(name: string, args: seq<Node>, cx: Context)
    requires FactoryNamed(name).Some?
    requires RouteKids(Corrected, CallN(IdentN(name), args), 0, false, cx).Ok?
    ensures Route(Corrected, CallN(IdentN(name), args), cx)
         == Ok(Routed(Lit(Null), RouteKids(Corrected, CallN(IdentN(name), args), 0, false, cx).value))
  {
    assert Builtin(name) == Some(Factory(FactoryNamed(name).value));
    assert Route(Corrected, IdentN(name), cx) == Ok(Routed(Factory(FactoryNamed(name).value), cx));
  }

  /** As written, a `-` or `!` of anything but a function reaches the missing helper and throws. */
  lemma AsWrittenUnaryThrows(op: string, arg: Node, cx: Context)
    requires Route(AsWritten, arg, cx).Ok? && !IsFunction(Route(AsWritten, arg, cx).value.v)
    ensures Route(AsWritten, UnaryN(op, arg), cx) == Fail(Thrown("utils.isObject is not a function"))
  {
  }

  /** Corrected, a unary operator on a primitive gives the JavaScript result. */
  lemma CorrectedUnaryComputes(op: string, arg: Node, cx: Context)
    requires Route(Corrected, arg, cx).Ok? && PrimOf(Route(Corrected, arg, cx).value.v).Some?
    requires Operators.Unary(op, PrimOf(Route(Corrected, arg, cx).value.v).value).Ok?
    ensures var a := Route(Corrected, arg, cx).value;
            Route(Corrected, UnaryN(op, arg), cx)
              == Ok(Routed(ValueTy(Operators.Unary(op, PrimOf(a.v).value).value), a.cx))
  {
  }

  /** Corrected, `!` of an object is the combinator `not(object)`; another operator on it throws. */
  lemma CorrectedNotOfObject(op: string, arg: Node, cx: Context)
    requires Route(Corrected, arg, cx).Ok? && IsObjectLikeTy(Route(Corrected, arg, cx).value.v)
    ensures var a := Route(Corrected, arg, cx).value;
            Route(Corrected, UnaryN(op, arg), cx)
              == if op == "!" then Ok(Routed(Fn(0, Not(a.v)), a.cx)) else Fail(Thrown("not implemented unary:" + op))
  {
  }

  // ---------------------------------------------------------------------------
  //  The final pass
  // ---------------------------------------------------------------------------

  /** The uses are accepted exactly when `_.has` finds every one of them. */
  lemma {:induction false} UsesChecked(d: Ty, us: seq<Use>)
    ensures CheckUses(d, us) == Ok(()) <==> forall i :: 0 <= i < |us| ==> HasPath(d, UsePath(us[i].ref)) == Ok(true)
    decreases |us|
  {
    if us != [] {
      UsesChecked(d, us[1..]);
      if HasPath(d, UsePath(us[0].ref)) == Ok(true) {
        assert CheckUses(d, us) == CheckUses(d, us[1..]);
        assert forall i :: 1 <= i < |us| ==> us[i] == us[1..][i - 1];
      } else {
        assert CheckUses(d, us).Fail?;
      }
    }
  }

  /** The first use `_.has` does not find is the one reported. */
  lemma {:induction false} FirstMissingThrows(d: Ty, us: seq<Use>, i: nat)
    requires i < |us|
    requires forall j :: 0 <= j < i ==> HasPath(d, UsePath(us[j].ref)) == Ok(true)
    requires HasPath(d, UsePath(us[i].ref)) == Ok(false)
    ensures CheckUses(d, us) == Fail(Thrown("not implemented type: " + UseText(us[i].ref)))
    decreases i
  {
    if i > 0 {
      assert HasPath(d, UsePath(us[0].ref)) == Ok(true);
      FirstMissingThrows(d, us[1..], i - 1);
    }
  }

  /** Whatever came before, the last declaration written into an object is found there. */
  lemma {:induction false} LastDeclarationFound(d: Ty, ds: seq<Declared>, x: Declared, next: Id)
    requires d.Shape? && x.path != []
    requires ApplyDeclares(d, ds + [x], next).Ok?
    ensures HasPath(ApplyDeclares(d, ds + [x], next).value, x.path) == Ok(true)
    decreases |ds|
  {
    if ds == [] {
      assert [] + [x] == [x] && [x][1..] == [];
      SetThenHas(d, x.path, x.value, next);
    } else {
      var s := SetPath(d, ds[0].path, ds[0].value, next).value;
      assert (ds + [x])[0] == ds[0] && (ds + [x])[1..] == ds[1..] + [x];
      LastDeclarationFound(s.0, ds[1..], x, s.1);
    }
  }

  /** One child of a routing loop that is not skipped: routed, and its context passed on. */
  lemma KidStep(variant: Variant, n: Node, i: nat, skipComments: bool, cx: Context)
    requires i < |Kids(n)| && !(skipComments && Kids(n)[i].CommentN?) && Route(variant, Kids(n)[i], cx).Ok?
    ensures RouteKids(variant, n, i, skipComments, cx)
         == RouteKids(variant, n, i + 1, skipComments, Route(variant, Kids(n)[i], cx).value.cx)
  {
    assert RouteKids(variant, n, i, skipComments, cx) == RouteKidsFrom(variant, n, i, skipComments, cx);
  }

  /** A declaration is appended to the context after its body is routed. */
  lemma DeclareRouted(variant: Variant, path: seq<string>, body: Node, cx: Context)
    requires Route(variant, body, cx).Ok?
    ensures var b := Route(variant, body, cx).value;
            Route(variant, DeclareN(path, body), cx)
              == Ok(Routed(Void, Context(b.cx.declares + [Declared(path, b.v)], b.cx.using)))
  {
  }

  /** An element: its declarations, then its schema, for their effect on the context. */
  lemma ElementRouted(variant: Variant, e: Node, cx: Context)
    requires e.ElementN? && RouteKids(variant, e, 0, false, cx).Ok?
    requires Route(variant, e.assignment, RouteKids(variant, e, 0, false, cx).value).Ok?
    ensures Route(variant, e, cx)
         == Ok(Routed(Void, Route(variant, e.assignment, RouteKids(variant, e, 0, false, cx).value).value.cx))
  {
  }

  lemma StartOne(variant: Variant, e: Node, cx: Context)
    requires e.ElementN? && Route(variant, e, cx).Ok?
    ensures Start(variant, [e], cx) == Ok(Route(variant, e, cx).value.cx)
  {
    assert [e][1..] == [];
  }

  /** The declarations of an element that holds one declaration with an unused body. */
  lemma OneDeclaration(variant: Variant, path: seq<string>, body: Node, use: Node)
    requires Route(variant, body, Context([], [])).Ok?
    requires Route(variant, body, Context([], [])).value.cx == Context([], [])
    ensures RouteKids(variant, ElementN([DeclareN(path, body)], use), 0, false, Context([], []))
         == Ok(Context([Declared(path, Route(variant, body, Context([], [])).value.v)], []))
  {
    var v := Route(variant, body, Context([], [])).value.v;
    var e := ElementN([DeclareN(path, body)], use);
    DeclareRouted(variant, path, body, Context([], []));
    assert [] + [Declared(path, v)] == [Declared(path, v)];
    assert Kids(e) == [DeclareN(path, body)];
    KidStep(variant, e, 0, false, Context([], []));
  }

  /** A program of one declaration and one use: the context it leaves for the final pass. */
  lemma DeclareThenUse(variant: Variant, path: seq<string>, body: Node)
    requires path != [] && !InTable(path[0])
    requires Route(variant, body, Context([], [])).Ok?
    requires Route(variant, body, Context([], [])).value.cx == Context([], [])
    ensures var v := Route(variant, body, Context([], [])).value.v;
            Start(variant, [ElementN([DeclareN(path, body)], MemberN(IdentN(path[0]), Steps(path[1..])))], Context([], []))
              == Ok(Context([Declared(path, v)], [Use(Join("[]", path), KeyPath(path, path))]))
  {
    var v := Route(variant, body, Context([], [])).value.v;
    var use := MemberN(IdentN(path[0]), Steps(path[1..]));
    var e := ElementN([DeclareN(path, body)], use);
    var cx1 := Context([Declared(path, v)], []);
    OneDeclaration(variant, path, body, use);
    MemberRecordsPath(variant, path[0], path[1..], cx1);
    assert [path[0]] + path[1..] == path;
    assert RecordUse([], Join("[]", path), KeyPath(path, path)) == [Use(Join("[]", path), KeyPath(path, path))];
    ElementRouted(variant, e, Context([], []));
    StartOne(variant, e, Context([], []));
  }

  lemma ApplyOne(d: Ty, x: Declared, next: Id)
    requires SetPath(d, x.path, x.value, next).Ok?
    ensures ApplyDeclares(d, [x], next) == Ok(SetPath(d, x.path, x.value, next).value.0)
  {
    assert [x][1..] == [];
  }

  lemma OneUseFound(d: Ty, u: Use)
    requires HasPath(d, UsePath(u.ref)) == Ok(true)
    ensures CheckUses(d, [u]) == Ok(())
  {
    assert [u][1..] == [];
  }

  /** `type k1.k2… = body` followed by the use `k1.k2…` is accepted. */
  lemma DeclaredPathAccepted(variant: Variant, path: seq<string>, body: Node, declares: Ty)
    requires path != [] && !InTable(path[0]) && declares.Shape?
    requires Route(variant, body, Context([], [])).Ok?
    requires Route(variant, body, Context([], [])).value.cx == Context([], [])
    requires SetPath(declares, path, Route(variant, body, Context([], [])).value.v, 0).Ok?
    ensures CheckProgram(variant, [ElementN([DeclareN(path, body)], MemberN(IdentN(path[0]), Steps(path[1..])))], declares)
         == Ok(())
  {
    var v := Route(variant, body, Context([], [])).value.v;
    DeclareThenUse(variant, path, body);
    SetThenHas(declares, path, v, 0);
    ApplyOne(declares, Declared(path, v), 0);
    OneUseFound(SetPath(declares, path, v, 0).value.0, Use(Join("[]", path), KeyPath(path, path)));
  }

  /** A name used but neither declared nor supplied is reported. */
  lemma UndeclaredNameRejected(variant: Variant, name: string, declares: Ty)
    requires !InTable(name) && declares.Shape? && EntryLookup(declares.entries, name).None?
    ensures CheckProgram(variant, [ElementN([], IdentN(name))], declares) == Fail(Thrown("not implemented type: " + name))
  {
    var e := ElementN([], IdentN(name));
    var cx := Context([], [Use(name, Name(name))]);
    assert Kids(e) == [];
    assert RouteKids(variant, e, 0, false, Context([], [])) == Ok(Context([], []));
    IdentRouted(variant, name, Context([], []));
    assert RecordUse([], name, Name(name)) == [Use(name, Name(name))];
    ElementRouted(variant, e, Context([], []));
    StartOne(variant, e, Context([], []));
  }
  /** A member access with one step that leaves the context as it was. */
  lemma OneStepRouted(variant: Variant, n: Node, cx: Context)
    requires n.MemberN? && |n.props| == 1
    requires Route(variant, n.props[0], cx).Ok? && Route(variant, n.props[0], cx).value.cx == cx
    ensures RouteValues(variant, n, 0, [], cx) == Ok(RoutedList([Route(variant, n.props[0], cx).value.v], cx))
  {
    var v := Route(variant, n.props[0], cx).value.v;
    assert Kids(n) == n.props;
    assert [] + [v] == [v];
    assert RouteValues(variant, n, 1, [v], cx) == Ok(RoutedList([v], cx));
    assert RouteValues(variant, n, 0, [], cx) == RouteValuesFrom(variant, n, 0, [], cx);
  }

  /** `name[step]` on a name outside the table, for a step that routes to `v` without touching the context. */
  lemma OneStepRecordsPath(variant: Variant, name: string, step: Node, v: Ty, cx: Context)
    requires !InTable(name) && Route(variant, step, cx) == Ok(Routed(v, cx)) && TextOf(v).Some?
    ensures var shown := if v.Void? || v == Lit(Null) then "" else TextOf(v).value;
            Route(variant, MemberN(IdentN(name), [step]), cx)
              == Ok(Routed(Lit(Null), cx.(using := RecordUse(cx.using, name + "[]" + shown, KeyPath([name, TextOf(v).value], [name, shown])))))
  {
    var n := MemberN(IdentN(name), [step]);
    OneStepRouted(variant, n, cx);
    OneTexts(v);
    var shown := if v.Void? || v == Lit(Null) then "" else TextOf(v).value;
    assert Join("[]", [name, shown]) == name + "[]" + shown;
    assert [name] + [TextOf(v).value] == [name, TextOf(v).value] && [name] + [shown] == [name, shown];
    NamedMemberRecords(variant, n, [v], cx, cx);
  }

  /** `name[null]` is looked up by the key `"null"`, but its step prints as empty text, so the use is kept under `name[]`. */
  lemma NullStepPrintsEmpty(variant: Variant, name: string, cx: Context)
    requires !InTable(name)
    ensures Route(variant, MemberN(IdentN(name), [PathN(true, NullN)]), cx)
         == Ok(Routed(Lit(Null), cx.(using := RecordUse(cx.using, name + "[]", KeyPath([name, "null"], [name, ""])))))
  {
    assert Route(variant, PathN(true, NullN), cx) == Ok(Routed(Lit(Null), cx));
    OneStepRecordsPath(variant, name, PathN(true, NullN), Lit(Null), cx);
    assert name + "[]" + "" == name + "[]";
  }

  /** `name['']` lands on the same key as `name[null]`, so of the two only the later use is kept. */
  lemma EmptyStepSharesTheKey(variant: Variant, name: string, cx: Context)
    requires !InTable(name)
    ensures Route(variant, MemberN(IdentN(name), [PathN(true, StrN(""))]), cx)
         == Ok(Routed(Lit(Null), cx.(using := RecordUse(cx.using, name + "[]", KeyPath([name, ""], [name, ""])))))
  {
    assert Route(variant, PathN(true, StrN("")), cx) == Ok(Routed(Lit(Str("")), cx));
    OneStepRecordsPath(variant, name, PathN(true, StrN("")), Lit(Str("")), cx);
    assert name + "[]" + "" == name + "[]";
  }

  /** The context a program whose schema is `name[null]` leaves for the final pass. */
  lemma NullStepContext(variant: Variant, name: string)
    requires !InTable(name)
    ensures Start(variant, [ElementN([], MemberN(IdentN(name), [PathN(true, NullN)]))], Context([], []))
         == Ok(Context([], [Use(name + "[]", KeyPath([name, "null"], [name, ""]))]))
  {
    var e := ElementN([], MemberN(IdentN(name), [PathN(true, NullN)]));
    var u := Use(name + "[]", KeyPath([name, "null"], [name, ""]));
    assert Kids(e) == [];
    assert RouteKids(variant, e, 0, false, Context([], [])) == Ok(Context([], []));
    NullStepPrintsEmpty(variant, name, Context([], []));
    assert RecordUse([], name + "[]", u.ref) == [u];
    ElementRouted(variant, e, Context([], []));
    StartOne(variant, e, Context([], []));
  }

  /** An undeclared `name[null]` is reported with its null step printed as empty text: `name,`. */
  lemma UndeclaredNullStepRejected(variant: Variant, name: string, declares: Ty)
    requires !InTable(name) && declares.Shape? && EntryLookup(declares.entries, name).None?
    ensures CheckProgram(variant, [ElementN([], MemberN(IdentN(name), [PathN(true, NullN)]))], declares)
         == Fail(Thrown("not implemented type: " + name + ","))
  {
    var u := Use(name + "[]", KeyPath([name, "null"], [name, ""]));
    NullStepContext(variant, name);
    assert ApplyDeclares(declares, [], 0) == Ok(declares);
    assert HasPath(declares, [name, "null"]) == Ok(false);
    assert UsePath(u.ref) == [name, "null"];
    assert JoinComma([name, ""]) == name + "," + JoinComma([""]);
    assert UseText(u.ref) == name + ",";
    assert "not implemented type: " + UseText(u.ref) == "not implemented type: " + name + ",";
    assert CheckUses(declares, [u]) == Fail(Thrown("not implemented type: " + name + ","));
  }
}
