/*******************************************************************************
 *  Properties of the mock engine: what it makes for the scalar combinators,
 *  that what it makes passes validation, how it fills arrays, how it closes
 *  cycles, and how `select` spends its quotas.
 *******************************************************************************/

module MockProps {
  import opened Outcomes
  import opened Values
  import opened Types
  import opened Interfaces
  import Operators
  import Validation
  import Equality
  import ValidationProps
  import opened Mocking

  /** Powers of two grow with the exponent. */
  lemma {:induction false} Pow2Monotone(a: nat, b: nat)
    requires a <= b
    ensures Operators.Pow2(a) <= Operators.Pow2(b)
    decreases b - a
  {
    if a < b {
      Pow2Monotone(a + 1, b);
    }
  }

  /** Every `int(bits)` with at least 8 bits holds [-127, 127]; every such `uint(bits)` holds [0, 255]. */
  lemma WideEnough(bits: Bits)
    requires bits >= 8
    ensures IntMin(bits) <= -127 && 127 <= IntMax(bits)
    ensures 255 <= UIntMax(bits)
  {
    Pow2Monotone(7, bits - 1);
    Pow2Monotone(8, bits);
    assert Operators.Pow2(7) == 128;
  }

  // ---------------------------------------------------------------------------
  //  Scalars: mocked, then accepted
  // ---------------------------------------------------------------------------

  /** `int(bits)` mocks an integer in [-127, 127], which validation accepts. */
  lemma MockIntRoundTrip(fuel: nat, o: Oracle, rx: Validation.RegexEngine, id: Id, bits: Bits, declares: Ty, cycleDeep: nat)
    requires bits >= 8
    ensures var r := Mock(fuel + 2, o, rx, Fn(id, IntK(bits)), declares, cycleDeep);
            r.Ok? && r.value.Mocked? && r.value.value.Num? && -127 <= r.value.value.n <= 127
  {
    var st := MockStart(Fn(id, IntK(bits)), declares, cycleDeep);
    var out := MockWalk(fuel + 2, o, Fn(id, IntK(bits)), AtRoot, [], st);
    assert out.Ok? && out.value.v.Num? && -127 <= out.value.v.n <= 127;
    WideEnough(bits);
    ValidationProps.IntAcceptsExactlyItsRange(fuel + 1, Validation.Env(out.value.st.heap, rx), out.value.v.n, id, bits, [],
                                              NewRoot(out.value.v, Fn(id, IntK(bits)), declares));
  }

  /** `uint(bits)` mocks an integer in [0, 255], which validation accepts. */
  lemma MockUIntRoundTrip(fuel: nat, o: Oracle, rx: Validation.RegexEngine, id: Id, bits: Bits, declares: Ty, cycleDeep: nat)
    requires bits >= 8
    ensures var r := Mock(fuel + 2, o, rx, Fn(id, UIntK(bits)), declares, cycleDeep);
            r.Ok? && r.value.Mocked? && r.value.value.Num? && 0 <= r.value.value.n <= 255
  {
    var st := MockStart(Fn(id, UIntK(bits)), declares, cycleDeep);
    var out := MockWalk(fuel + 2, o, Fn(id, UIntK(bits)), AtRoot, [], st);
    assert out.Ok? && out.value.v.Num? && 0 <= out.value.v.n <= 255;
    WideEnough(bits);
    ValidationProps.UIntAcceptsExactlyItsRange(fuel + 1, Validation.Env(out.value.st.heap, rx), out.value.v.n, id, bits, [],
                                               NewRoot(out.value.v, Fn(id, UIntK(bits)), declares));
  }

  /** `bool` mocks a boolean, which validation accepts. */
  lemma MockBoolRoundTrip(fuel: nat, o: Oracle, rx: Validation.RegexEngine, id: Id, declares: Ty, cycleDeep: nat)
    ensures var r := Mock(fuel + 2, o, rx, Fn(id, BoolK), declares, cycleDeep);
            r.Ok? && r.value.Mocked? && r.value.value.Bool?
  {
    var b := MockWalk(fuel + 2, o, Fn(id, BoolK), AtRoot, [], MockStart(Fn(id, BoolK), declares, cycleDeep));
    ValidationProps.BoolAndStrKinds(fuel + 1, Validation.Env(b.value.st.heap, rx), b.value.v, id, [],
                                    NewRoot(b.value.v, Fn(id, BoolK), declares));
  }

  /** `str` mocks the oracle's string, which validation accepts. */
  lemma MockStrRoundTrip(fuel: nat, o: Oracle, rx: Validation.RegexEngine, id: Id, declares: Ty, cycleDeep: nat)
    ensures var r := Mock(fuel + 2, o, rx, Fn(id, StrK), declares, cycleDeep);
            r.Ok? && r.value.Mocked? && r.value.value == Str(o.text(0))
  {
    var s := MockWalk(fuel + 2, o, Fn(id, StrK), AtRoot, [], MockStart(Fn(id, StrK), declares, cycleDeep));
    ValidationProps.BoolAndStrKinds(fuel + 1, Validation.Env(s.value.st.heap, rx), s.value.v, id, [],
                                    NewRoot(s.value.v, Fn(id, StrK), declares));
  }

  /** `enum` over primitives mocks one of its values, which validation accepts. */
  lemma MockEnumRoundTrip(fuel: nat, o: Oracle, rx: Validation.RegexEngine, id: Id, vs: seq<Value>, declares: Ty, cycleDeep: nat)
    requires |vs| > 0
    ensures var ts := seq(|vs|, i requires 0 <= i < |vs| => Lit(vs[i]));
            var r := Mock(fuel + 2, o, rx, Fn(id, Enum(ts)), declares, cycleDeep);
            r.Ok? && r.value.Mocked? && r.value.value in vs
  {
    var ts := seq(|vs|, i requires 0 <= i < |vs| => Lit(vs[i]));
    var out := MockWalk(fuel + 2, o, Fn(id, Enum(ts)), AtRoot, [], MockStart(Fn(id, Enum(ts)), declares, cycleDeep));
    var n := Random(o, MockStart(Fn(id, Enum(ts)), declares, cycleDeep), 0, |ts| - 1).0;
    assert out.Ok? && out.value.v == vs[n];
    var env := Validation.Env(out.value.st.heap, rx);
    assert Equality.DeepEqualTy(env.heap, out.value.v, ts[n]);
    ValidationProps.EqAndEnum(fuel + 1, env, out.value.v, id, Void, ts, [], NewRoot(out.value.v, Fn(id, Enum(ts)), declares));
  }

  /** `never` mocks undefined, which its own validation refuses: mocking it never succeeds. */
  lemma MockNeverIsRejected(fuel: nat, o: Oracle, rx: Validation.RegexEngine, id: Id, declares: Ty, cycleDeep: nat)
    ensures var r := Mock(fuel + 2, o, rx, Fn(id, NeverK), declares, cycleDeep);
            r.Ok? && r.value.Rejected?
  {
    var out := MockWalk(fuel + 2, o, Fn(id, NeverK), AtRoot, [], MockStart(Fn(id, NeverK), declares, cycleDeep));
    assert out.Ok? && out.value.v == Undef;
    ValidationProps.AnyAndNever(fuel + 1, Validation.Env(out.value.st.heap, rx), Undef, id, [],
                                NewRoot(Undef, Fn(id, NeverK), declares));
  }

  // ---------------------------------------------------------------------------
  //  Arrays
  // ---------------------------------------------------------------------------

  predicate AllAre(xs: seq<Value>, v: Value) {
    forall j :: 0 <= j < |xs| ==> xs[j] == v
  }

  /**
   * An array of a literal type fills its node with between one and ten copies
   * of the literal, appended at indices 0, 1, … in turn.
   */
  lemma {:induction false} LiteralArrayFill(fuel: nat, o: Oracle, v: Value, node: Addr, path: seq<string>, i: nat, st: MockState)
    requires fuel >= 1 && i <= 10
    requires node in st.heap && st.heap[node].Arr? && |st.heap[node].items| == i && AllAre(st.heap[node].items, v)
    ensures var r := MockArrayLoop(fuel, o, Lit(v), node, path, i, st);
            r.Ok? && node in r.value.heap && r.value.heap[node].Arr?
            && (if i == 0 then 1 else i) <= |r.value.heap[node].items| <= 10
            && AllAre(r.value.heap[node].items, v)
    decreases 10 - i
  {
    var (n, st1) := Random(o, st, 1, 10);
    if i < n {
      var p := path + [Decimal(i)];
      assert GetKey(p) == Decimal(i);
      IndexOfNatToString(i);
      var c := SetKey(st1.heap[node], Decimal(i), v);
      assert c == Some(Arr(st1.heap[node].items + [v]));
      var out := MockWalk(fuel, o, Lit(v), InCell(node), p, st1);
      assert out.Ok? && out.value.st.heap[node] == c.value;
      LiteralArrayFill(fuel, o, v, node, path, i + 1, out.value.st);
    }
  }

  // ---------------------------------------------------------------------------
  //  Cycles
  // ---------------------------------------------------------------------------

  /**
   * With `cycleDeep` 0, a container type met again on its own descent writes a
   * reference to the node made for it the first time, instead of a new node.
   */
  lemma RevisitReusesNode(fuel: nat, o: Oracle, t: Ty, a: Addr, path: seq<string>, st: MockState)
    requires t.List? || t.Shape?
    requires t.id in st.marker && st.root.cycleDeep == 0
    requires a in st.heap && st.heap[a].Obj?
    ensures var r := MockContainer(fuel, o, t, InCell(a), path, st);
            r.Ok? && r.value.v == Ptr(st.marker[t.id])
            && r.value.st.heap == st.heap[a := Obj(Put(st.heap[a].fields, GetKey(path), Ptr(st.marker[t.id])))]
  {
  }

  /** A unrolled container whose count is spent stops the walk. */
  lemma SpentCycleThrows(fuel: nat, o: Oracle, t: Ty, target: Target, path: seq<string>, st: MockState)
    requires t.List? || t.Shape?
    requires t.id in st.marker && st.root.cycleDeep > 0
    requires st.marker[t.id] in st.nums && st.nums[st.marker[t.id]] == 0
    ensures MockContainer(fuel, o, t, target, path, st) == Fail(Thrown("cycle is detected"))
  {
  }

  /**
   * With `cycleDeep` above 0, a container type met again while its unrolling
   * count is positive spends one unit of that count and is mocked afresh: a
   * new node goes into the slot, and the first node stays registered.
   */
  lemma RevisitUnrollsOnce(fuel: nat, o: Oracle, id: Id, a: Addr, path: seq<string>, st: MockState)
    requires id in st.marker && st.root.cycleDeep > 0
    requires st.marker[id] in st.nums && st.nums[st.marker[id]] > 0
    requires Allocated(st) && a in st.heap && st.heap[a].Obj?
    ensures var m := st.marker[id];
            var r := MockContainer(fuel, o, Shape(id, []), InCell(a), path, st);
            && r.Ok? && r.value.v == Ptr(st.next)
            && r.value.st.nums == st.nums[m := st.nums[m] - 1]
            && r.value.st.marker == st.marker
            && r.value.st.heap == st.heap[st.next := Obj([])][a := Obj(Put(st.heap[a].fields, GetKey(path), Ptr(st.next)))]
  {
    var m := st.marker[id];
    var st1 := st.(nums := st.nums[m := st.nums[m] - 1]);
    assert st.next !in st.heap;
    assert MockContainer(fuel, o, Shape(id, []), InCell(a), path, st) == Fill(fuel, o, Shape(id, []), InCell(a), path, st1, false);
  }

  /** `{ next: node }` declared as `node`. */
  const LinkedNode: Ty := Shape(1, [Entry("next", Fn(2, Definition(["node"], "node")))])
  const LinkedDeclares: Ty := Shape(0, [Entry("node", LinkedNode)])

  /** The object `node` is being filled, registered with `cycleDeep` 0, and its key `next` is still unset. */
  predicate FillingNode(st: MockState) {
    st.root.declares == LinkedDeclares && st.root.cycleDeep == 0
    && st.marker == map[1 := 1] && 1 in st.heap && st.heap[1] == Obj([])
  }

  /** Met again while it is being filled, `node` writes a reference to itself into the key `next`. */
  lemma NodeRevisited(fuel: nat, o: Oracle, st: MockState)
    requires fuel > 1 && FillingNode(st)
    ensures MockWalk(fuel, o, LinkedNode, InCell(1), ["next"], st)
            == Ok(Out(Ptr(1), st.(heap := st.heap[1 := Obj([Field("next", Ptr(1))])])))
  {
    var st4 := st.(heap := st.heap[1 := Obj([Field("next", Ptr(1))])]);
    assert Put([], "next", Ptr(1)) == [Field("next", Ptr(1))];
    assert Store(st, InCell(1), "next", Ptr(1)) == Ok(st4);
    assert MockContainer(fuel - 1, o, LinkedNode, InCell(1), ["next"], st) == Ok(Out(Ptr(1), st4));
  }

  /** `node` named through its declaration resolves to the same revisit. */
  lemma NodeDefinitionRevisits(fuel: nat, o: Oracle, st: MockState)
    requires fuel > 1 && FillingNode(st)
    ensures MockApply(fuel, o, 2, Definition(["node"], "node"), InCell(1), ["next"], st)
            == Ok(Out(Ptr(1), st.(heap := st.heap[1 := Obj([Field("next", Ptr(1))])])))
  {
    assert GetPath(LinkedDeclares, ["node"]) == Some(LinkedNode);
    DefinitionWalksDeclared(fuel, o, 2, ["node"], "node", InCell(1), ["next"], st, LinkedNode);
    NodeRevisited(fuel, o, st);
  }

  /** `definition(p)` over object-like declarations mocks the type declared at `p`. */
  lemma DefinitionWalksDeclared(fuel: nat, o: Oracle, id: Id, p: seq<string>, shown: string, target: Target, path: seq<string>,
                                st: MockState, t: Ty)
    requires IsObjectLikeTy(st.root.declares) && GetPath(st.root.declares, p) == Some(t)
    ensures MockApply(fuel, o, id, Definition(p, shown), target, path, st) == MockWalk(fuel, o, t, target, path, st)
  {
  }

  /** `anyOf(ts)` with members mocks one of them, chosen by one draw. */
  lemma AnyOfMocksOneMember(fuel: nat, o: Oracle, id: Id, ts: seq<Ty>, target: Target, path: seq<string>, st: MockState)
    requires |ts| > 0
    ensures exists n :: 0 <= n < |ts|
              && MockApply(fuel, o, id, AnyOf(ts), target, path, st)
                 == MockWalk(fuel, o, ts[n], target, path, st.(draws := st.draws + 1))
  {
    var (n, st1) := Random(o, st, 0, |ts| - 1);
    assert MockApply(fuel, o, id, AnyOf(ts), target, path, st) == MockWalk(fuel, o, ts[n], target, path, st1);
  }

  /** A function type in a slot: its value is what the slot holds once the function's result is stored. */
  lemma FnStores(fuel: nat, o: Oracle, id: Id, c: Comb, target: Target, path: seq<string>, st: MockState,
                 a: Out, st2: MockState)
    requires fuel > 0
    requires MockApply(fuel - 1, o, id, c, target, path, st) == Ok(a)
    requires Store(a.st, target, GetKey(path), a.v) == Ok(st2)
    ensures MockWalk(fuel, o, Fn(id, c), target, path, st) == Ok(Out(Read(st2, target, GetKey(path)), st2))
  {
  }

  /** The key `next` of the object being filled mocks to that object: the revisit closes the cycle. */
  lemma NodeKeyClosesCycle(fuel: nat, o: Oracle, st: MockState)
    requires fuel > 2 && FillingNode(st)
    ensures MockWalk(fuel, o, Fn(2, Definition(["node"], "node")), InCell(1), ["next"], st)
            == Ok(Out(Ptr(1), st.(heap := st.heap[1 := Obj([Field("next", Ptr(1))])])))
  {
    var st4 := st.(heap := st.heap[1 := Obj([Field("next", Ptr(1))])]);
    NodeDefinitionRevisits(fuel - 1, o, st);
    assert Put([Field("next", Ptr(1))], "next", Ptr(1)) == [Field("next", Ptr(1))];
    assert st4.heap[1 := Obj([Field("next", Ptr(1))])] == st4.heap;
    assert Store(st4, InCell(1), "next", Ptr(1)) == Ok(st4);
    FnStores(fuel, o, 2, Definition(["node"], "node"), InCell(1), ["next"], st, Out(Ptr(1), st4), st4);
  }

  /** The key `next` of the object being filled is stored in it. */
  lemma NodeKeyStored(fuel: nat, o: Oracle, st: MockState)
    requires fuel > 2 && FillingNode(st)
    ensures MockObject(fuel, o, LinkedNode.entries, 0, 1, [], st) == Ok(st.(heap := st.heap[1 := Obj([Field("next", Ptr(1))])]))
  {
    var st4 := st.(heap := st.heap[1 := Obj([Field("next", Ptr(1))])]);
    assert SlotKey(o, "next", Fn(2, Definition(["node"], "node")), st) == Ok(("next", st));
    NodeKeyClosesCycle(fuel, o, st);
    assert LinkedNode.entries[0] == Entry("next", Fn(2, Definition(["node"], "node")));
    assert [] + ["next"] == ["next"];
    ObjectStep(fuel, o, LinkedNode.entries, 0, 1, [], st, "next", st, Out(Ptr(1), st4));
  }

  /** Mocked with `cycleDeep` 0, a self-referencing declaration becomes an object whose `next` is itself. */
  lemma SelfReferenceClosesOnItself(o: Oracle)
    ensures var r := MockWalk(4, o, LinkedNode, AtRoot, [], MockStart(LinkedNode, LinkedDeclares, 0));
            r.Ok? && r.value.v == Ptr(1) && Get(r.value.st.heap, Ptr(1), "next") == Ptr(1)
  {
    var st0 := MockStart(LinkedNode, LinkedDeclares, 0);
    var st3 := st0.(heap := map[0 := Obj([]), 1 := Obj([])], next := 2, marker := map[1 := 1],
                    nums := map[1 := MAX_CYCLE_LIMIT], root := st0.root.(data := Ptr(1)));
    var st4 := st3.(heap := st3.heap[1 := Obj([Field("next", Ptr(1))])]);
    NodeKeyStored(3, o, st3);
    assert Fill(3, o, LinkedNode, AtRoot, [], st0, true) == Ok(Out(Ptr(1), st4.(marker := map[])));
  }

  /** One type key of `mockObject`: its slot key, then its walk, then the keys after it. */
  lemma ObjectStep(fuel: nat, o: Oracle, es: seq<Entry>, i: nat, node: Addr, path: seq<string>, st: MockState,
                   key: string, st': MockState, out: Out)
    requires i < |es|
    requires SlotKey(o, es[i].key, es[i].t, st) == Ok((key, st'))
    requires MockWalk(fuel, o, es[i].t, InCell(node), path + [key], st') == Ok(out)
    ensures MockObject(fuel, o, es, i, node, path, st) == MockObject(fuel, o, es, i + 1, node, path, out.st)
  {
  }

  // ---------------------------------------------------------------------------
  //  select
  // ---------------------------------------------------------------------------

  predicate QuotasInRange(counter: map<Ty, int>, cycleDeep: nat) {
    forall t :: t in counter ==> 0 <= counter[t] <= cycleDeep - 1
  }

  /** Quotas start at `cycleDeep - 1` and only ever count down to 0. */
  lemma SelectKeepsQuotasInRange(o: Oracle, cycleDeep: nat, ts: seq<Ty>, q: Quotas)
    requires cycleDeep > 0 && QuotasInRange(q.counter, cycleDeep)
    ensures QuotasInRange(Select(o, cycleDeep, ts, q).1.counter, cycleDeep)
  {
  }

  /** With quotas, a member is chosen at most `cycleDeep - 1` times over any run of selections. */
  lemma {:induction false} SelectSpendsQuota(o: Oracle, cycleDeep: nat, ts: seq<Ty>, q: Quotas, t: Ty)
    requires cycleDeep > 0 && QuotasInRange(q.counter, cycleDeep)
    requires Select(o, cycleDeep, ts, q).0 == Some(t)
    ensures var c := Select(o, cycleDeep, ts, q).1.counter;
            t in c && c[t] < (if t in q.counter then q.counter[t] else cycleDeep - 1)
            && (t in q.counter ==> q.counter[t] > 0)
            && (Distinct(ts) ==> c[t] == StartQuota(q.counter, cycleDeep, t) - 1)
  {
    if Distinct(ts) {
      SelectDistinctQuotas(o, cycleDeep, ts, q);
    }
  }

  /** No member is listed twice. */
  predicate Distinct(ts: seq<Ty>) {
    forall i, j :: 0 <= i < j < |ts| ==> ts[i] != ts[j]
  }

  /** In a list without repeats, a member occurs exactly once from its own position on. */
  lemma {:induction false} OccursOnce(ts: seq<Ty>, i: nat, t: Ty)
    requires Distinct(ts) && i <= |ts| && t in ts[i..]
    ensures Occurrences(ts, i, t) == 1
    decreases |ts| - i
  {
    assert ts[i..] == [ts[i]] + ts[i + 1..];
    if ts[i] == t {
      assert t !in ts[i + 1..] by {
        forall k | i + 1 <= k < |ts|
          ensures ts[k] != t
        {
          assert ts[i] != ts[k];
        }
      }
      OccurrencesAbsent(ts, i + 1, t);
    } else {
      OccursOnce(ts, i + 1, t);
    }
  }

  /**
   * The quotas after one `select` with `cycleDeep > 0`: every listed member
   * has spent one unit of its starting quota per listing, down to 0; every
   * other type keeps its quota; one draw was taken.
   */
  lemma SelectQuotas(o: Oracle, cycleDeep: nat, ts: seq<Ty>, q: Quotas)
    requires cycleDeep > 0
    ensures var r := Select(o, cycleDeep, ts, q);
            && r.1.draws == q.draws + 1
            && (forall t :: t in ts ==>
                  t in r.1.counter && r.1.counter[t] == Spent(StartQuota(q.counter, cycleDeep, t), Occurrences(ts, 0, t)))
            && (forall t :: t !in ts ==>
                  (t in r.1.counter <==> t in q.counter) && (t in q.counter ==> r.1.counter[t] == q.counter[t]))
  {
    EligibleQuotas(cycleDeep, ts, 0, q.counter, []);
    assert ts[0..] == ts;
  }

  /**
   * `select` over a list without repeats: an eligible member (positive
   * starting quota) spends exactly one unit, an ineligible one keeps its
   * quota, and the eligible members are exactly the candidates drawn from.
   */
  lemma SelectDistinctQuotas(o: Oracle, cycleDeep: nat, ts: seq<Ty>, q: Quotas)
    requires cycleDeep > 0 && Distinct(ts)
    ensures var r := Select(o, cycleDeep, ts, q);
            forall t :: t in ts ==>
              var start := StartQuota(q.counter, cycleDeep, t);
              t in r.1.counter && r.1.counter[t] == (if start > 0 then start - 1 else start)
    ensures var s := Eligible(cycleDeep, ts, 0, q.counter, []);
            forall t :: t in s.1 <==> t in ts && StartQuota(q.counter, cycleDeep, t) > 0
  {
    SelectQuotas(o, cycleDeep, ts, q);
    assert ts[0..] == ts;
    forall t | t in ts
      ensures Occurrences(ts, 0, t) == 1
    {
      OccursOnce(ts, 0, t);
    }
    EligibleMembers(cycleDeep, ts, 0, q.counter, []);
    EligibleFacts(cycleDeep, ts, 0, q.counter, []);
  }
}
