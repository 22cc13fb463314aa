/*******************************************************************************
 *  Deep equality (`_.isEqual`) as the combinators use it: a datum against a
 *  compiled value (`eq`, `enum`, literal types), and a datum against another
 *  datum (`self`).
 *******************************************************************************/

module Equality {
  import opened Outcomes
  import opened Values
  import opened Types

  /**
   * A datum deep-equals a compiled value: primitives by value, regular
   * expressions by source and flags, arrays element-wise, plain objects by
   * key set and per-key values.  No datum equals a function.
   */
  predicate DeepEqualTy(h: Heap, d: Value, t: Ty)
    decreases t
  {
    match t
    case Void => d == Undef
    case Lit(v) => d == v
    case Pattern(re) => d == Re(re)
    case List(_, ts) =>
      IsArray(h, d) && |h[d.addr].items| == |ts|
      && forall i :: 0 <= i < |ts| ==> DeepEqualTy(h, h[d.addr].items[i], ts[i])
    case Shape(_, es) =>
      IsPlainObject(h, d) && |h[d.addr].fields| == |es|
      && forall j :: 0 <= j < |es| ==>
           HasField(h[d.addr].fields, es[j].key) && DeepEqualTy(h, Lookup(h[d.addr].fields, es[j].key), es[j].t)
    case _ => false
  }

  /** Some value of the list deep-equals the datum (the `enum` test). */
  predicate AnyDeepEqual(h: Heap, d: Value, ts: seq<Ty>) {
    exists i :: 0 <= i < |ts| && DeepEqualTy(h, d, ts[i])
  }

  /**
   * `_.isEqual(a, b)` on two data.  Pairs of objects under comparison are kept
   * on a stack in both directions; meeting a pair whose two sides are both
   * stacked decides it by whether they were stacked against each other, which
   * is how cyclic data compare.  `fuel` bounds the depth.
   */
  function DeepEqualData(fuel: nat, h: Heap, a: Value, b: Value, stack: map<Addr, Addr>): (r: Result<bool>)
    ensures a == b ==> r == Ok(true)
    ensures IsPrimitive(a) && a != b ==> r == Ok(false)
    decreases fuel, 0
  {
    if a == b then Ok(true)
    else if !(a.Ptr? && b.Ptr? && a.addr in h && b.addr in h) then Ok(false)
    else if a.addr in stack && b.addr in stack then Ok(stack[a.addr] == b.addr && stack[b.addr] == a.addr)
    else if fuel == 0 then Fail(StackExhausted)
    else
      var st := stack[a.addr := b.addr][b.addr := a.addr];
      match (h[a.addr], h[b.addr])
      case (Arr(xs), Arr(ys)) =>
        if |xs| != |ys| then Ok(false) else ItemsEqual(fuel - 1, h, xs, ys, 0, st)
      case (Obj(fs), Obj(gs)) =>
        if |fs| != |gs| then Ok(false) else FieldsEqual(fuel - 1, h, fs, gs, 0, st)
      case _ => Ok(false)
  }

  function ItemsEqual(fuel: nat, h: Heap, xs: seq<Value>, ys: seq<Value>, i: nat, stack: map<Addr, Addr>)
    : Result<bool>
    requires |xs| == |ys| && i <= |xs|
    decreases fuel, |xs| - i
  {
    if i == |xs| then Ok(true)
    else
      var e :- DeepEqualData(fuel, h, xs[i], ys[i], stack);
      if !e then Ok(false) else ItemsEqual(fuel, h, xs, ys, i + 1, stack)
  }

  function FieldsEqual(fuel: nat, h: Heap, fs: seq<Field>, gs: seq<Field>, i: nat, stack: map<Addr, Addr>)
    : Result<bool>
    requires i <= |fs|
    decreases fuel, |fs| - i
  {
    if i == |fs| then Ok(true)
    else if !HasField(gs, fs[i].key) then Ok(false)
    else
      var e :- DeepEqualData(fuel, h, fs[i].val, Lookup(gs, fs[i].key), stack);
      if !e then Ok(false) else FieldsEqual(fuel, h, fs, gs, i + 1, stack)
  }

  /** `_.isEqual(a, b)` from an empty stack. */
  function IsEqual(fuel: nat, h: Heap, a: Value, b: Value): (r: Result<bool>)
    ensures a == b ==> r == Ok(true)
  {
    DeepEqualData(fuel, h, a, b, map[])
  }

  /** Two distinct arrays of equal primitives compare equal, element by element. */
  lemma {:induction false} ItemsEqualPrimitives(fuel: nat, h: Heap, xs: seq<Value>, ys: seq<Value>, i: nat,
                                                stack: map<Addr, Addr>)
    requires |xs| == |ys| && i <= |xs|
    requires forall j :: i <= j < |xs| ==> IsPrimitive(xs[j])
    ensures ItemsEqual(fuel, h, xs, ys, i, stack) == Ok(xs[i..] == ys[i..])
    decreases |xs| - i
  {
    if i < |xs| {
      ItemsEqualPrimitives(fuel, h, xs, ys, i + 1, stack);
      assert xs[i..] == [xs[i]] + xs[i + 1..];
      assert ys[i..] == [ys[i]] + ys[i + 1..];
    }
  }
}
