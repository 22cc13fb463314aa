/*******************************************************************************
 *  The mock engine (src/mock.ts) together with the mock half of every
 *  combinator (src/types.ts).
 *
 *  A walk writes the value it makes into a slot, `data[key]`, of the value
 *  being built, and returns what the slot then holds.  The key is the last
 *  element of the path; at the top the slot is the `data` property of the
 *  root itself, which is how `self` expressions see the partly built datum.
 *
 *  Randomness comes from an oracle read at a draw counter.  The marker map
 *  (array and object types on the current descent, with the node made for
 *  each) is scoped to the walk that extends it; the remaining-repeat count of
 *  a marker belongs to the marker itself and is shared by every walk.
 *******************************************************************************/

module Mocking {
  import opened Outcomes
  import opened Values
  import opened Types
  import opened Interfaces
  import Utils
  import Expressions
  import Validation

  /** The sources of randomness: integers, random strings, and strings a regular expression matches. */
  datatype Oracle = Oracle(pick: nat -> int, text: nat -> string, sample: (Regex, nat) -> string)

  /** How many times a cyclic type may be unrolled before `cycle is detected`. */
  const MAX_CYCLE_LIMIT: int := 100000

  /** The slot a walk writes: the root's `data` property, or a property of a node on the heap. */
  datatype Target = AtRoot | InCell(addr: Addr)

  datatype MockState = MockState(
    root: Root,
    heap: Heap,
    next: Addr,                 // the next free address
    draws: nat,                 // how many random draws have been made
    marker: map<Id, Addr>,      // container type -> the node made for it on this descent
    nums: map<Addr, int>)       // node -> how many more times its type may be unrolled

  /** A walk's result: the value the slot holds afterwards, and the state. */
  datatype Out = Out(v: Value, st: MockState)

  /** Every address in use lies below `next`. */
  predicate Allocated(st: MockState) {
    forall a :: a in st.heap ==> a < st.next
  }

  /**
   * What any mock step may change: it may write cells and allocate new ones,
   * draw, set the root's `data`, and spend unrolling counts, but it never
   * frees a cell and leaves the marker map of its caller as it was.
   */
  predicate Steady(a: MockState, b: MockState) {
    a.heap.Keys <= b.heap.Keys && a.next <= b.next && a.draws <= b.draws
    && b.marker == a.marker
    && b.root == a.root.(data := b.root.data)
    && (Allocated(a) ==> Allocated(b))
  }

  lemma SteadyTrans(a: MockState, b: MockState, c: MockState)
    requires Steady(a, b) && Steady(b, c)
    ensures Steady(a, c)
  {
  }

  // ---------------------------------------------------------------------------
  //  Randomness and slots
  // ---------------------------------------------------------------------------

  /** `_.random(lo, hi)` on integers: bounds in either order, both included. */
  function Random(o: Oracle, st: MockState, lo: int, hi: int): (r: (int, MockState))
    ensures (lo <= hi ==> lo <= r.0 <= hi) && (hi < lo ==> hi <= r.0 <= lo)
    ensures r.1 == st.(draws := st.draws + 1)
  {
    var a := if lo <= hi then lo else hi;
    var b := if lo <= hi then hi else lo;
    (a + o.pick(st.draws) % (b - a + 1), st.(draws := st.draws + 1))
  }

  /** `getKey`: the last path element, or `data` at the top. */
  function GetKey(path: seq<string>): (k: string)
    ensures path == [] ==> k == "data"
    ensures path != [] ==> k == path[|path| - 1]
  {
    if |path| == 0 then "data" else path[|path| - 1]
  }

  /** `data[key] = v`. */
  function Store(st: MockState, target: Target, key: string, v: Value): (r: Result<MockState>)
    ensures r.Ok? ==> Steady(st, r.value) && r.value.next == st.next && r.value.draws == st.draws
    ensures target.AtRoot? ==> r == Ok(st.(root := st.root.(data := v)))
    ensures target.InCell? && target.addr in st.heap && st.heap[target.addr].Obj? ==>
              r.Ok? && Read(r.value, target, key) == v
  {
    match target
    case AtRoot => Ok(st.(root := st.root.(data := v)))
    case InCell(a) =>
      if a !in st.heap then Fail(Unmodelled("a write into a cell outside the heap"))
      else
        match SetKey(st.heap[a], key, v)
        case None => Fail(Unmodelled("a non-index property written on an array"))
        case Some(c) => Ok(st.(heap := st.heap[a := c]))
  }

  /** `data[key]`. */
  function Read(st: MockState, target: Target, key: string): Value {
    match target
    case AtRoot => st.root.data
    case InCell(a) => Get(st.heap, Ptr(a), key)
  }

  /** A new, empty array or object on the heap. */
  function Alloc(st: MockState, c: Cell): (r: (Addr, MockState))
    ensures r.0 in r.1.heap && r.1.heap[r.0] == c && (Allocated(st) ==> r.0 !in st.heap)
    ensures forall a :: a in st.heap && a != r.0 ==> a in r.1.heap && r.1.heap[a] == st.heap[a]
    ensures Steady(st, r.1) && r.1.next == st.next + 1 && r.1.draws == st.draws
  {
    (st.next, st.(heap := st.heap[st.next := c], next := st.next + 1))
  }

  /** The `keyMock` property of a type, when it has one of its own. */
  function KeyMockOf(t: Ty): Option<Ty> {
    match t
    case Fn(_, MockKey(km, _)) => Some(km)
    case Shape(_, es) => EntryLookup(es, "keyMock")
    case _ => None
  }

  // ---------------------------------------------------------------------------
  //  The walk
  // ---------------------------------------------------------------------------

  /** `walk(type, data, path, root)` of the mock engine. */
  function MockWalk(fuel: nat, o: Oracle, t: Ty, target: Target, path: seq<string>, st: MockState): (r: Result<Out>)
    ensures r.Ok? ==> Steady(st, r.value.st)
    ensures fuel > 0 && t.Fn? && target.AtRoot? ==>
              (r.Ok? <==> MockApply(fuel - 1, o, t.id, t.c, target, path, st).Ok?)
              && (r.Ok? ==> r.value.v == MockApply(fuel - 1, o, t.id, t.c, target, path, st).value.v)
    decreases fuel, 0
  {
    if fuel == 0 then Fail(StackExhausted)
    else
      var key := GetKey(path);
      match t
      case Pattern(re) =>
        var st1 := st.(draws := st.draws + 1);
        var st2 :- Store(st1, target, key, Str(o.sample(re, st.draws)));
        Ok(Out(Read(st2, target, key), st2))
      case Fn(id, c) =>
        var a :- MockApply(fuel - 1, o, id, c, target, path, st);
        var st2 :- Store(a.st, target, key, a.v);
        Ok(Out(Read(st2, target, key), st2))
      case Packed(_, _) => Fail(Unmodelled("a packed expression called as a type"))
      case Factory(k) => Fail(Unmodelled("the factory " + FactoryName(k) + " called as a type"))
      case Foreign(what) => Fail(Unmodelled(what))
      case List(id, _) => MockContainer(fuel - 1, o, t, target, path, st)
      case Shape(id, _) => MockContainer(fuel - 1, o, t, target, path, st)
      case Void =>
        var st2 :- Store(st, target, key, Undef);
        Ok(Out(Read(st2, target, key), st2))
      case Lit(v) =>
        var st2 :- Store(st, target, key, v);
        Ok(Out(Read(st2, target, key), st2))
  }

  /**
   * An array or object type.  Met again on the same descent, it reuses the
   * node made the first time when no unrolling is allowed (`cycleDeep` 0);
   * otherwise it is unrolled once more while the marker's count lasts, and
   * then `cycle is detected`.  Met for the first time, it is marked with a
   * fresh node for the walks below it.
   */
  function MockContainer(fuel: nat, o: Oracle, t: Ty, target: Target, path: seq<string>, st: MockState)
    : (r: Result<Out>)
    requires t.List? || t.Shape?
    ensures r.Ok? ==> Steady(st, r.value.st)
    ensures t.id in st.marker && st.root.cycleDeep == 0 ==>
              r.Ok? == Store(st, target, GetKey(path), Ptr(st.marker[t.id])).Ok?
    ensures t.id in st.marker && st.root.cycleDeep != 0 && st.marker[t.id] in st.nums && st.nums[st.marker[t.id]] <= 0 ==>
              r == Fail(Thrown("cycle is detected"))
    decreases fuel, 3
  {
    var key := GetKey(path);
    if t.id in st.marker then
      var m := st.marker[t.id];
      if st.root.cycleDeep == 0 then
        var st2 :- Store(st, target, key, Ptr(m));
        Ok(Out(Read(st2, target, key), st2))
      else if m in st.nums && st.nums[m] > 0 then
        Fill(fuel, o, t, target, path, st.(nums := st.nums[m := st.nums[m] - 1]), false)
      else Fail(Thrown("cycle is detected"))
    else Fill(fuel, o, t, target, path, st, true)
  }

  /** Make the node, write it into the slot, register it if asked, and fill it. */
  function Fill(fuel: nat, o: Oracle, t: Ty, target: Target, path: seq<string>, st: MockState, register: bool)
    : (r: Result<Out>)
    requires t.List? || t.Shape?
    ensures r.Ok? ==> Steady(st, r.value.st)
    decreases fuel, 2
  {
    var key := GetKey(path);
    var (node, st1) := Alloc(st, if t.List? then Arr([]) else Obj([]));
    var st2 := if register then st1.(marker := st1.marker[t.id := node], nums := st1.nums[node := MAX_CYCLE_LIMIT]) else st1;
    var st3 :- Store(st2, target, key, Ptr(node));
    var st4 :- if t.List? then MockArray(fuel, o, t.elems, node, path, st3) else MockObject(fuel, o, t.entries, 0, node, path, st3);
    var st5 := st4.(marker := st.marker);
    Ok(Out(Read(st5, target, key), st5))
  }

  /** `mockArray`: one element type, mocked into indices 0, 1, … while `i < random(1, 10)`. */
  function MockArray(fuel: nat, o: Oracle, elems: seq<Ty>, node: Addr, path: seq<string>, st: MockState)
    : (r: Result<MockState>)
    ensures r.Ok? ==> Steady(st, r.value)
    ensures |elems| > 1 ==> r == Fail(Thrown("array type contains multiple types"))
    ensures |elems| == 0 ==> r == Ok(st)
    decreases fuel, 1, 11
  {
    if |elems| > 1 then Fail(Thrown("array type contains multiple types"))
    else if |elems| == 0 then Ok(st)
    else MockArrayLoop(fuel, o, elems[0], node, path, 0, st)
  }

  function MockArrayLoop(fuel: nat, o: Oracle, elem: Ty, node: Addr, path: seq<string>, i: nat, st: MockState)
    : (r: Result<MockState>)
    requires i <= 10
    ensures r.Ok? ==> Steady(st, r.value)
    decreases fuel, 1, 10 - i
  {
    var (n, st1) := Random(o, st, 1, 10);
    if i < n then
      var out :- MockWalk(fuel, o, elem, InCell(node), path + [Decimal(i)], st1);
      MockArrayLoop(fuel, o, elem, node, path, i + 1, out.st)
    else Ok(st1)
  }

  /** `mockObject`: every key of the type names the slot its value type is mocked into. */
  function MockObject(fuel: nat, o: Oracle, es: seq<Entry>, i: nat, node: Addr, path: seq<string>, st: MockState)
    : (r: Result<MockState>)
    requires i <= |es|
    ensures r.Ok? ==> Steady(st, r.value)
    decreases fuel, 1, |es| - i
  {
    if i == |es| then Ok(st)
    else
      var k := es[i].key;
      var ct := es[i].t;
      var slot :- SlotKey(o, k, ct, st);
      var out :- MockWalk(fuel, o, ct, InCell(node), path + [slot.0], slot.1);
      MockObject(fuel, o, es, i + 1, node, path, out.st)
  }

  /**
   * The key a type key of `mockObject` writes: `$rest` writes its `keyMock`, a
   * pattern key its `keyMock` when that is a string and otherwise a string the
   * pattern matches, a plain key itself unescaped.  Other control keys throw.
   */
  function SlotKey(o: Oracle, k: string, ct: Ty, st: MockState): (r: Result<(string, MockState)>)
    ensures r.Ok? ==> r.value.1 == st || r.value.1 == st.(draws := st.draws + 1)
    ensures !Utils.IsControlKey(k) && !Utils.IsPatternKey(k) ==> r == Ok((Utils.UnescapeControlKey(k), st))
    ensures Utils.IsControlKey(k) && k != REST_KEY ==> r == Fail(Thrown("unknown control key"))
    ensures k == REST_KEY && KeyMockOf(ct).None? ==> r == Fail(Thrown("$rest should mock with keyMock"))
  {
    if Utils.IsControlKey(k) then
      if k != REST_KEY then Fail(Thrown("unknown control key"))
      else
        match KeyMockOf(ct)
        case None => Fail(Thrown("$rest should mock with keyMock"))
        case Some(km) =>
          if km.Lit? && ToText(km.v).Some? then Ok((ToText(km.v).value, st))
          else Fail(Unmodelled("a keyMock that is not a primitive"))
    else if Utils.IsPatternKey(k) then
      match Utils.MatchKeyPattern(k)
      case None => Fail(Thrown("pattern key is not a valid RegExp"))
      case Some(kp) =>
        match KeyMockOf(ct)
        case Some(Lit(Str(s))) => Ok((s, st))
        case _ => Ok((o.sample(Regex(kp.body, kp.flags), st.draws), st.(draws := st.draws + 1)))
    else Ok((Utils.UnescapeControlKey(k), st))
  }

  // ---------------------------------------------------------------------------
  //  The combinators
  // ---------------------------------------------------------------------------

  /** The combinators that cannot make data. */
  function MockRefusal(c: Comb): Option<string> {
    match c
    case AllOf(_) => Some("allOf")
    case OneOf(_) => Some("oneOf")
    case Not(_) => Some("not")
    case Match(_, _) => Some("match")
    case Range(_, _, _) => Some("range")
    case _ => None
  }

  /** The combinators whose mock value needs no walk: the scalars, `any`, `nil` and `never`. */
  predicate IsScalarComb(c: Comb) {
    c.BoolK? || c.IntK? || c.UIntK? || c.FloatK? || c.StrK? || c.AnyK? || c.NilK? || c.NeverK?
  }

  /** The mock half of the combinator `c`: the value it returns. */
  function MockApply(fuel: nat, o: Oracle, id: Id, c: Comb, target: Target, path: seq<string>, st: MockState)
    : (r: Result<Out>)
    ensures r.Ok? ==> Steady(st, r.value.st)
    ensures MockRefusal(c).Some? ==> r == Fail(Thrown("\"" + MockRefusal(c).value + "\" must be used with \"mock\" type"))
    decreases fuel, 3
  {
    if MockRefusal(c).Some? then Fail(Thrown("\"" + MockRefusal(c).value + "\" must be used with \"mock\" type"))
    else if IsScalarComb(c) then MockScalar(o, c, st)
    else
      match c
      case Tuple(items) => MockEach(fuel, o, items, 0, target, path, st, [])
      case Rest(inner) =>
        (match inner
         case List(_, elems) => MockEach(fuel, o, elems, 0, target, path, st, [])
         case Lit(Str(s)) => MockEach(fuel, o, CharTypes(s), 0, target, path, st, [])
         case _ => Fail(Thrown("type is not iterable")))
      case Eq(val) => Materialize(fuel, val, st)
      case Enum(vals) => MockChoice(fuel, o, vals, st)
      case Optional(inner) => MockWalk(fuel, o, inner, target, path, st)
      case MockAlt(alts, _) => MockChoice(fuel, o, alts, st)
      case MockKey(_, inner) => MockWalk(fuel, o, inner, target, path, st)
      case AnyOf(ts) =>
        var (n, st1) := Random(o, st, 0, |ts| - 1);
        MockWalk(fuel, o, if 0 <= n < |ts| then ts[n] else Void, target, path, st1)
      case Ref(p) =>
        var t :- Validation.ResolveRef(st.root, p);
        MockWalk(fuel, o, t, target, path, st)
      case Self(e) =>
        var v :- Expressions.Eval(st.heap, st.root.data, e);
        Ok(Out(v, st))
      case Definition(p, shown) =>
        if !IsObjectLikeTy(st.root.declares) then Fail(Thrown("not implemented type:" + shown))
        else MockWalk(fuel, o, match GetPath(st.root.declares, p) case Some(t) => t case None => Void, target, path, st)
      case Description(_, inner) => MockWalk(fuel, o, inner, target, path, st)
      case _ => assert false; Fail(StackExhausted)
  }

  /**
   * The scalars: a random boolean, an integer in [-127, 127] for `int`, in
   * [0, 255] for `uint`, a random string; `any` one of 1, `"string"`, null and
   * a new `[1, 2, 3]`; undefined for `nil` and `never`.
   */
  function MockScalar(o: Oracle, c: Comb, st: MockState): (r: Result<Out>)
    requires IsScalarComb(c)
    ensures r.Ok? ==> Steady(st, r.value.st)
    ensures c.BoolK? ==> r.Ok? && r.value.v.Bool? && r.value.st == st.(draws := st.draws + 1)
    ensures c.IntK? ==> r.Ok? && r.value.v.Num? && -127 <= r.value.v.n <= 127 && r.value.st == st.(draws := st.draws + 1)
    ensures c.UIntK? ==> r.Ok? && r.value.v.Num? && 0 <= r.value.v.n <= 255 && r.value.st == st.(draws := st.draws + 1)
    ensures c.StrK? ==> r == Ok(Out(Str(o.text(st.draws)), st.(draws := st.draws + 1)))
    ensures c.NilK? || c.NeverK? ==> r == Ok(Out(Undef, st))
    ensures c.AnyK? ==> r.Ok? && (r.value.v in {Num(1), Str("string"), Null} || r.value.v == Ptr(st.next))
  {
    match c
    case BoolK =>
      var (n, st1) := Random(o, st, 0, 1);
      Ok(Out(Bool(n == 1), st1))
    case IntK(_) =>
      var (n, st1) := Random(o, st, -127, 127);
      Ok(Out(Num(n), st1))
    case UIntK(_) =>
      var (n, st1) := Random(o, st, 0, 255);
      Ok(Out(Num(n), st1))
    case FloatK(_) => Fail(Unmodelled("a random floating point number"))
    case StrK => Ok(Out(Str(o.text(st.draws)), st.(draws := st.draws + 1)))
    case AnyK =>
      var (n, st1) := Random(o, st, 0, 3);
      if n == 0 then Ok(Out(Num(1), st1))
      else if n == 1 then Ok(Out(Str("string"), st1))
      else if n == 2 then Ok(Out(Null, st1))
      else
        var (a, st2) := Alloc(st1, Arr([Num(1), Num(2), Num(3)]));
        Ok(Out(Ptr(a), st2))
    case NilK => Ok(Out(Undef, st))
    case NeverK => Ok(Out(Undef, st))
  }

  /**
   * `enum` and `mock`: one of the values at a random index, handed back as
   * the data; an empty list yields undefined.
   */
  function MockChoice(fuel: nat, o: Oracle, vals: seq<Ty>, st: MockState): (r: Result<Out>)
    ensures r.Ok? ==> Steady(st, r.value.st)
    ensures vals == [] ==> r == Ok(Out(Undef, st.(draws := st.draws + 1)))
    ensures |vals| > 0 && (forall i :: 0 <= i < |vals| ==> vals[i].Lit?) ==>
              r.Ok? && exists i :: 0 <= i < |vals| && r.value.v == vals[i].v
    decreases fuel, 1, 1
  {
    var (n, st1) := Random(o, st, 0, |vals| - 1);
    if 0 <= n < |vals| then Materialize(fuel, vals[n], st1) else Ok(Out(Undef, st1))
  }

  /** Iterating a string literal: one literal type per character. */
  function CharTypes(s: string): (r: seq<Ty>)
    ensures |r| == |s| && forall i :: 0 <= i < |s| ==> r[i] == Lit(Str([s[i]]))
  {
    if s == [] then [] else CharTypes(s[..|s| - 1]) + [Lit(Str([s[|s| - 1]]))]
  }

  /**
   * `tuple` (and `rest` over an array type): every item is mocked into the
   * same slot in turn, and the values collected form a new array.
   */
  function MockEach(fuel: nat, o: Oracle, items: seq<Ty>, i: nat, target: Target, path: seq<string>,
                    st: MockState, acc: seq<Value>): (r: Result<Out>)
    requires i <= |items|
    ensures r.Ok? ==> Steady(st, r.value.st)
    decreases fuel, 2, |items| - i
  {
    if i == |items| then
      var (a, st1) := Alloc(st, Arr(acc));
      Ok(Out(Ptr(a), st1))
    else
      var out :- MockWalk(fuel, o, items[i], target, path, st);
      MockEach(fuel, o, items, i + 1, target, path, out.st, acc + [out.v])
  }

  /**
   * The value `eq` and `mock` hand back.  The engine hands back the compiled
   * value itself; here arrays and objects are copied onto the heap.
   */
  function Materialize(fuel: nat, t: Ty, st: MockState): (r: Result<Out>)
    ensures r.Ok? ==> Steady(st, r.value.st)
    ensures t.Lit? ==> r == Ok(Out(t.v, st))
    decreases fuel, 0, 0
  {
    match t
    case Void => Ok(Out(Undef, st))
    case Lit(v) => Ok(Out(v, st))
    case Pattern(re) => Ok(Out(Re(re), st))
    case List(_, ts) =>
      if fuel == 0 then Fail(StackExhausted)
      else
        var items :- MaterializeItems(fuel - 1, ts, 0, st, []);
        var (a, st1) := Alloc(items.1, Arr(items.0));
        Ok(Out(Ptr(a), st1))
    case Shape(_, es) =>
      if fuel == 0 then Fail(StackExhausted)
      else
        var fields :- MaterializeFields(fuel - 1, es, 0, st, []);
        var (a, st1) := Alloc(fields.1, Obj(fields.0));
        Ok(Out(Ptr(a), st1))
    case _ => Fail(Unmodelled("a function handed back as mock data"))
  }

  function MaterializeItems(fuel: nat, ts: seq<Ty>, i: nat, st: MockState, acc: seq<Value>)
    : (r: Result<(seq<Value>, MockState)>)
    requires i <= |ts|
    ensures r.Ok? ==> Steady(st, r.value.1) && |r.value.0| == |acc| + |ts| - i
    decreases fuel, 0, |ts| - i
  {
    if i == |ts| then Ok((acc, st))
    else
      var out :- Materialize(fuel, ts[i], st);
      MaterializeItems(fuel, ts, i + 1, out.st, acc + [out.v])
  }

  function MaterializeFields(fuel: nat, es: seq<Entry>, i: nat, st: MockState, acc: seq<Field>)
    : (r: Result<(seq<Field>, MockState)>)
    requires i <= |es|
    ensures r.Ok? ==> Steady(st, r.value.1) && |r.value.0| == |acc| + |es| - i
    decreases fuel, 0, |es| - i
  {
    if i == |es| then Ok((acc, st))
    else
      var out :- Materialize(fuel, es[i].t, st);
      MaterializeFields(fuel, es, i + 1, out.st, acc + [Field(es[i].key, out.v)])
  }

  // ---------------------------------------------------------------------------
  //  select
  // ---------------------------------------------------------------------------

  /** The state `select` works on: the per-type quotas and the draw counter. */
  datatype Quotas = Quotas(counter: map<Ty, int>, draws: nat)

  /**
   * `select(types)`: with `cycleDeep` 0 any member; otherwise only members
   * whose quota (starting at `cycleDeep - 1`) is still positive are eligible,
   * and each eligible member spends one unit of its quota.  `None` is the
   * undefined an empty choice yields.
   */
  function Select(o: Oracle, cycleDeep: nat, ts: seq<Ty>, q: Quotas): (r: (Option<Ty>, Quotas))
    ensures r.0.Some? ==> r.0.value in ts
    ensures cycleDeep == 0 ==> r.1.counter == q.counter
    ensures cycleDeep != 0 && r.0.Some? ==>
              (r.0.value in q.counter ==> q.counter[r.0.value] > 0)
              && r.0.value in r.1.counter && r.1.counter[r.0.value] < (if r.0.value in q.counter then q.counter[r.0.value] else cycleDeep - 1)
  {
    if cycleDeep == 0 then
      var n := Pick(o, q.draws, |ts|);
      (if 0 <= n < |ts| then Some(ts[n]) else None, q.(draws := q.draws + 1))
    else
      var s := Eligible(cycleDeep, ts, 0, q.counter, []);
      var n := Pick(o, q.draws, |s.1|);
      (if 0 <= n < |s.1| then Some(s.1[n]) else None, Quotas(s.0, q.draws + 1))
  }

  /** `_.random(0, n - 1)` as an index. */
  function Pick(o: Oracle, draw: nat, n: nat): (r: int)
    ensures n > 0 ==> 0 <= r < n
    ensures n == 0 ==> -1 <= r <= 0
  {
    var a := if n == 0 then -1 else 0;
    var b := if n == 0 then 0 else n - 1;
    a + o.pick(draw) % (b - a + 1)
  }

  /** The quota a member of `select` starts from: its counter, or `cycleDeep - 1` the first time. */
  function StartQuota(counter: map<Ty, int>, cycleDeep: nat, t: Ty): int {
    if t in counter then counter[t] else cycleDeep - 1
  }

  /** A quota `q` after `n` eligibility checks: each one spends a unit while the quota is positive. */
  function Spent(q: int, n: nat): int {
    if q <= 0 then q else if n <= q then q - n else 0
  }

  /** The loop of `select`: the members still eligible, each having spent one unit of quota. */
  function Eligible(cycleDeep: nat, ts: seq<Ty>, i: nat, counter: map<Ty, int>, acc: seq<Ty>)
    : (r: (map<Ty, int>, seq<Ty>))
    requires cycleDeep > 0 && i <= |ts|
    ensures forall t :: t in r.1 ==> t in acc || t in ts[i..]
    ensures forall t :: t in r.1 && t !in acc ==>
              t in r.0 && r.0[t] < (if t in counter then counter[t] else cycleDeep - 1)
    ensures forall t :: t in r.1 && t !in acc && t in counter ==> counter[t] > 0
    ensures forall t :: t in counter ==> t in r.0 && r.0[t] <= counter[t]
    ensures forall t :: t in r.0 && t !in counter ==> r.0[t] <= cycleDeep - 1
    ensures (forall t :: t in counter ==> counter[t] >= 0) ==> forall t :: t in r.0 ==> r.0[t] >= 0
  {
    EligibleFacts(cycleDeep, ts, i, counter, acc);
    EligibleLoop(cycleDeep, ts, i, counter, acc)
  }

  /** The rounds of the loop of `select`, from member `i` on. */
  function EligibleLoop(cycleDeep: nat, ts: seq<Ty>, i: nat, counter: map<Ty, int>, acc: seq<Ty>)
    : (map<Ty, int>, seq<Ty>)
    requires cycleDeep > 0 && i <= |ts|
    decreases |ts| - i
  {
    if i == |ts| then (counter, acc)
    else
      var t := ts[i];
      var c := if t in counter then counter else counter[t := cycleDeep - 1];
      if c[t] > 0 then EligibleLoop(cycleDeep, ts, i + 1, c[t := c[t] - 1], acc + [t])
      else EligibleLoop(cycleDeep, ts, i + 1, c, acc)
  }

  /** How many times `t` occurs in `ts` from index `i` on. */
  function Occurrences(ts: seq<Ty>, i: nat, t: Ty): nat
    requires i <= |ts|
    decreases |ts| - i
  {
    if i == |ts| then 0 else (if ts[i] == t then 1 else 0) + Occurrences(ts, i + 1, t)
  }

  /** The quotas alone as the loop of `select` leaves them: every member checked spends a unit while it can. */
  function SpentQuotas(cycleDeep: nat, ts: seq<Ty>, i: nat, counter: map<Ty, int>): map<Ty, int>
    requires i <= |ts|
    decreases |ts| - i
  {
    if i == |ts| then counter
    else SpentQuotas(cycleDeep, ts, i + 1, counter[ts[i] := Spent(StartQuota(counter, cycleDeep, ts[i]), 1)])
  }

  /** One round of the loop of `select`: the member's quota is spent once, and it is kept when it was positive. */
  lemma EligibleStep(cycleDeep: nat, ts: seq<Ty>, i: nat, counter: map<Ty, int>, acc: seq<Ty>)
    requires cycleDeep > 0 && i < |ts|
    ensures var q := StartQuota(counter, cycleDeep, ts[i]);
            EligibleLoop(cycleDeep, ts, i, counter, acc)
            == EligibleLoop(cycleDeep, ts, i + 1, counter[ts[i] := Spent(q, 1)], if q > 0 then acc + [ts[i]] else acc)
  {
    var t := ts[i];
    var c := if t in counter then counter else counter[t := cycleDeep - 1];
    if c[t] <= 0 {
      assert c == counter[t := Spent(StartQuota(counter, cycleDeep, t), 1)];
    } else {
      assert c[t := c[t] - 1] == counter[t := Spent(StartQuota(counter, cycleDeep, t), 1)];
    }
  }

  /** The quotas the loop of `select` leaves do not depend on which members it kept. */
  lemma {:induction false} EligibleSpends(cycleDeep: nat, ts: seq<Ty>, i: nat, counter: map<Ty, int>, acc: seq<Ty>)
    requires cycleDeep > 0 && i <= |ts|
    ensures EligibleLoop(cycleDeep, ts, i, counter, acc).0 == SpentQuotas(cycleDeep, ts, i, counter)
    decreases |ts| - i
  {
    if i < |ts| {
      var q := StartQuota(counter, cycleDeep, ts[i]);
      EligibleStep(cycleDeep, ts, i, counter, acc);
      EligibleSpends(cycleDeep, ts, i + 1, counter[ts[i] := Spent(q, 1)], if q > 0 then acc + [ts[i]] else acc);
    }
  }

  /** A member is kept only when it is listed and its starting quota is positive. */
  lemma {:induction false} EligibleKept(cycleDeep: nat, ts: seq<Ty>, i: nat, counter: map<Ty, int>, acc: seq<Ty>)
    requires cycleDeep > 0 && i <= |ts|
    ensures var r := EligibleLoop(cycleDeep, ts, i, counter, acc);
            forall t :: t in r.1 && t !in acc ==> t in ts[i..] && StartQuota(counter, cycleDeep, t) > 0
    decreases |ts| - i
  {
    if i < |ts| {
      var t := ts[i];
      var q := StartQuota(counter, cycleDeep, t);
      var next := counter[t := Spent(q, 1)];
      var acc' := if q > 0 then acc + [t] else acc;
      EligibleStep(cycleDeep, ts, i, counter, acc);
      EligibleKept(cycleDeep, ts, i + 1, next, acc');
      assert ts[i..] == [t] + ts[i + 1..];
      forall u | u in EligibleLoop(cycleDeep, ts, i, counter, acc).1 && u !in acc
        ensures u in ts[i..] && StartQuota(counter, cycleDeep, u) > 0
      {
        if u != t {
          assert StartQuota(next, cycleDeep, u) == StartQuota(counter, cycleDeep, u);
        }
      }
    }
  }

  /** The quotas never grow, and a member seen for the first time starts from `cycleDeep - 1`. */
  lemma {:induction false} SpentQuotasBounds(cycleDeep: nat, ts: seq<Ty>, i: nat, counter: map<Ty, int>)
    requires cycleDeep > 0 && i <= |ts|
    ensures var m := SpentQuotas(cycleDeep, ts, i, counter);
            && (forall t :: t in counter ==> t in m && m[t] <= counter[t])
            && (forall t :: t in m && t !in counter ==> m[t] <= cycleDeep - 1)
            && ((forall t :: t in counter ==> counter[t] >= 0) ==> forall t :: t in m ==> m[t] >= 0)
    decreases |ts| - i
  {
    if i < |ts| {
      var next := counter[ts[i] := Spent(StartQuota(counter, cycleDeep, ts[i]), 1)];
      SpentQuotasBounds(cycleDeep, ts, i + 1, next);
    }
  }

  /** The facts `Eligible` promises about the loop. */
  lemma EligibleFacts(cycleDeep: nat, ts: seq<Ty>, i: nat, counter: map<Ty, int>, acc: seq<Ty>)
    requires cycleDeep > 0 && i <= |ts|
    ensures var r := EligibleLoop(cycleDeep, ts, i, counter, acc);
            && (forall t :: t in r.1 && t !in acc ==>
                  t in r.0 && r.0[t] < (if t in counter then counter[t] else cycleDeep - 1))
            && (forall t :: t in r.1 && t !in acc && t in counter ==> counter[t] > 0)
            && (forall t :: t in r.1 ==> t in acc || t in ts[i..])
            && (forall t :: t in counter ==> t in r.0 && r.0[t] <= counter[t])
            && (forall t :: t in r.0 && t !in counter ==> r.0[t] <= cycleDeep - 1)
            && ((forall t :: t in counter ==> counter[t] >= 0) ==> forall t :: t in r.0 ==> r.0[t] >= 0)
  {
    var r := EligibleLoop(cycleDeep, ts, i, counter, acc);
    EligibleSpends(cycleDeep, ts, i, counter, acc);
    EligibleKept(cycleDeep, ts, i, counter, acc);
    SpentQuotasBounds(cycleDeep, ts, i, counter);
    forall u | u in r.1 && u !in acc
      ensures u in r.0 && r.0[u] < StartQuota(counter, cycleDeep, u)
    {
      OccurrencesPresent(ts, i, u);
      QuotaOf(cycleDeep, ts, i, counter, u);
    }
  }

  /** Counting from `i` is counting `ts[i]` and then from `i + 1`. */
  lemma OccurrencesStep(ts: seq<Ty>, i: nat, t: Ty)
    requires i < |ts|
    ensures Occurrences(ts, i, t) == (if ts[i] == t then 1 else 0) + Occurrences(ts, i + 1, t)
  {
  }

  /** A type absent from `ts[i..]` occurs there zero times. */
  lemma {:induction false} OccurrencesAbsent(ts: seq<Ty>, i: nat, t: Ty)
    requires i <= |ts| && t !in ts[i..]
    ensures Occurrences(ts, i, t) == 0
    decreases |ts| - i
  {
    if i < |ts| {
      assert ts[i..] == [ts[i]] + ts[i + 1..];
      OccurrencesAbsent(ts, i + 1, t);
    }
  }

  /** A type present in `ts[i..]` occurs there at least once. */
  lemma {:induction false} OccurrencesPresent(ts: seq<Ty>, i: nat, t: Ty)
    requires i <= |ts| && t in ts[i..]
    ensures Occurrences(ts, i, t) > 0
    decreases |ts| - i
  {
    assert ts[i..] == [ts[i]] + ts[i + 1..];
    if ts[i] != t {
      OccurrencesPresent(ts, i + 1, t);
    }
  }

  /** One more check of a quota: it spends a unit when positive, and is left alone otherwise. */
  lemma SpentOnce(q: int, n: nat)
    ensures Spent(Spent(q, 1), n) == Spent(q, n + 1)
  {
  }

  /** A type that does not occur in the rest of the list keeps its quota through the loop. */
  lemma {:induction false} UntouchedQuota(cycleDeep: nat, ts: seq<Ty>, i: nat, counter: map<Ty, int>, u: Ty)
    requires i <= |ts| && Occurrences(ts, i, u) == 0
    ensures var m := SpentQuotas(cycleDeep, ts, i, counter);
            (u in m <==> u in counter) && (u in counter ==> m[u] == counter[u])
    decreases |ts| - i
  {
    if i < |ts| {
      UntouchedQuota(cycleDeep, ts, i + 1, counter[ts[i] := Spent(StartQuota(counter, cycleDeep, ts[i]), 1)], u);
    }
  }

  /** The quota of one member after the loop of `select`: its starting quota, spent once per occurrence. */
  lemma {:induction false} QuotaOf(cycleDeep: nat, ts: seq<Ty>, i: nat, counter: map<Ty, int>, u: Ty)
    requires i <= |ts| && Occurrences(ts, i, u) > 0
    ensures var m := SpentQuotas(cycleDeep, ts, i, counter);
            u in m && m[u] == Spent(StartQuota(counter, cycleDeep, u), Occurrences(ts, i, u))
    decreases |ts| - i
  {
    var t := ts[i];
    var q := StartQuota(counter, cycleDeep, t);
    var next := counter[t := Spent(q, 1)];
    OccurrencesStep(ts, i, u);
    if u == t {
      var n := Occurrences(ts, i + 1, t);
      assert StartQuota(next, cycleDeep, t) == Spent(q, 1);
      SpentOnce(q, n);
      if n > 0 {
        QuotaOf(cycleDeep, ts, i + 1, next, u);
      } else {
        UntouchedQuota(cycleDeep, ts, i + 1, next, u);
      }
    } else {
      assert StartQuota(next, cycleDeep, u) == StartQuota(counter, cycleDeep, u);
      QuotaOf(cycleDeep, ts, i + 1, next, u);
    }
  }

  /**
   * The quotas after the loop of `select`: a member checked `n` times has
   * spent `n` units of its starting quota, down to 0 and no further; a type
   * not in the list keeps its quota, or still has none.
   */
  lemma EligibleQuotas(cycleDeep: nat, ts: seq<Ty>, i: nat, counter: map<Ty, int>, acc: seq<Ty>)
    requires cycleDeep > 0 && i <= |ts|
    ensures var r := Eligible(cycleDeep, ts, i, counter, acc);
            && (forall t :: t in ts[i..] ==> t in r.0 && r.0[t] == Spent(StartQuota(counter, cycleDeep, t), Occurrences(ts, i, t)))
            && (forall t :: t !in ts[i..] ==> (t in r.0 <==> t in counter) && (t in counter ==> r.0[t] == counter[t]))
  {
    EligibleSpends(cycleDeep, ts, i, counter, acc);
    forall u | u in ts[i..]
      ensures u in SpentQuotas(cycleDeep, ts, i, counter)
      ensures SpentQuotas(cycleDeep, ts, i, counter)[u] == Spent(StartQuota(counter, cycleDeep, u), Occurrences(ts, i, u))
    {
      OccurrencesPresent(ts, i, u);
      QuotaOf(cycleDeep, ts, i, counter, u);
    }
    forall u | u !in ts[i..]
      ensures var m := SpentQuotas(cycleDeep, ts, i, counter);
              (u in m <==> u in counter) && (u in counter ==> m[u] == counter[u])
    {
      OccurrencesAbsent(ts, i, u);
      UntouchedQuota(cycleDeep, ts, i, counter, u);
    }
  }

  /** Every member of the list whose starting quota is positive is eligible. */
  lemma {:induction false} EligibleMembers(cycleDeep: nat, ts: seq<Ty>, i: nat, counter: map<Ty, int>, acc: seq<Ty>)
    requires cycleDeep > 0 && i <= |ts|
    ensures var r := Eligible(cycleDeep, ts, i, counter, acc);
            forall t :: (t in acc || (t in ts[i..] && StartQuota(counter, cycleDeep, t) > 0)) ==> t in r.1
    decreases |ts| - i
  {
    if i < |ts| {
      var t := ts[i];
      var q := StartQuota(counter, cycleDeep, t);
      var next := counter[t := Spent(q, 1)];
      var acc' := if q > 0 then acc + [t] else acc;
      EligibleStep(cycleDeep, ts, i, counter, acc);
      EligibleMembers(cycleDeep, ts, i + 1, next, acc');
      assert ts[i..] == [t] + ts[i + 1..];
      forall u | u in acc || (u in ts[i..] && StartQuota(counter, cycleDeep, u) > 0)
        ensures u in Eligible(cycleDeep, ts, i, counter, acc).1
      {
        if u in acc {
          assert u in acc';
        } else if u != t {
          assert u in ts[i + 1..];
          assert StartQuota(next, cycleDeep, u) == StartQuota(counter, cycleDeep, u);
        } else {
          assert u in acc';
        }
      }
    }
  }

  // ---------------------------------------------------------------------------
  //  The entry point
  // ---------------------------------------------------------------------------

  datatype MockOutcome =
    | Mocked(value: Value, heap: Heap)      // the data, which validate accepted
    | Rejected(errors: seq<Issue>)          // validate's errors on the data (the engine throws them)

  /** The state a mock run starts from: the root's `data` is a fresh empty object. */
  function MockStart(schema: Ty, declares: Ty, cycleDeep: nat): (st: MockState)
    ensures Allocated(st) && st.root.isMock && st.marker == map[]
  {
    MockState(Root(Ptr(0), schema, declares, true, [], {}, cycleDeep), map[0 := Obj([])], 1, 0, map[], map[])
  }

  /** The default export: mock the type from the root, then validate the result against it. */
  function Mock(fuel: nat, o: Oracle, rx: Validation.RegexEngine, schema: Ty, declares: Ty, cycleDeep: nat)
    : (r: Result<MockOutcome>)
    ensures r.Ok? && r.value.Mocked? ==>
              Validation.Validate(fuel, Validation.Env(r.value.heap, rx), r.value.value, schema, declares) == Ok(None)
    ensures r.Ok? && r.value.Rejected? ==> r.value.errors != []
  {
    var out :- MockWalk(fuel, o, schema, AtRoot, [], MockStart(schema, declares, cycleDeep));
    var errs :- Validation.Validate(fuel, Validation.Env(out.st.heap, rx), out.v, schema, declares);
    if errs.None? then Ok(Mocked(out.v, out.st.heap)) else Ok(Rejected(errs.value))
  }
}
