/*******************************************************************************
 *  Key classification, key escaping, integer recognition and `merge`
 *  (src/utils.ts).
 *******************************************************************************/

module Utils {
  import opened Outcomes
  import opened Values

  const MAX_SAFE_INTEGER: int := 9007199254740991
  const MIN_SAFE_INTEGER: int := -9007199254740991

  // ---------------------------------------------------------------------------
  //  Key classification
  // ---------------------------------------------------------------------------

  /** A control key such as `$rest`: a `$` followed by a character other than `$`. */
  predicate IsControlKey(s: string) {
    |s| >= 2 && s[0] == '$' && s[1] != '$'
  }

  /** A pattern key such as `/^a/`: a `/` followed by a character other than `/`. */
  predicate IsPatternKey(s: string) {
    |s| >= 2 && s[0] == '/' && s[1] != '/'
  }

  /** `$$k` and `//k` are the escaped spellings of the plain keys `$k` and `/k`. */
  function UnescapeControlKey(k: string): (r: string)
    ensures |k| > 1 && k[0] == k[1] && (k[0] == '$' || k[0] == '/') ==> r == k[1..]
    ensures !(|k| > 1 && k[0] == k[1] && (k[0] == '$' || k[0] == '/')) ==> r == k
  {
    if |k| > 1 && ((k[0] == '/' && k[1] == '/') || (k[0] == '$' && k[1] == '$')) then k[1..] else k
  }

  /** Escaping a key that would read as a control key: the escaped key is plain, and unescapes to the original. */
  lemma EscapeControlKey(k: string)
    requires |k| > 0 && k[0] == '$'
    ensures !IsControlKey("$" + k) && !IsPatternKey("$" + k)
    ensures UnescapeControlKey("$" + k) == k
  {
    assert ("$" + k)[1..] == k;
  }

  /** The same for keys that would read as pattern keys. */
  lemma EscapePatternKey(k: string)
    requires |k| > 0 && k[0] == '/'
    ensures !IsControlKey("/" + k) && !IsPatternKey("/" + k)
    ensures UnescapeControlKey("/" + k) == k
  {
    assert ("/" + k)[1..] == k;
  }

  /** Control keys and pattern keys are never altered by unescaping. */
  lemma UnescapeKeepsClassifiedKeys(k: string)
    requires IsControlKey(k) || IsPatternKey(k)
    ensures UnescapeControlKey(k) == k
  {
  }

  // ---------------------------------------------------------------------------
  //  Pattern keys: `/body/flags`
  // ---------------------------------------------------------------------------

  datatype KeyPattern = KeyPattern(body: string, flags: string)

  predicate IsKeyFlag(c: char) {
    c == 'i' || c == 'g' || c == 'm' || c == 'u' || c == 'y'
  }

  predicate AllKeyFlags(s: string) {
    forall i :: 0 <= i < |s| ==> IsKeyFlag(s[i])
  }

  function LastIndexOf(s: string, c: char): (r: Option<nat>)
    ensures r.Some? ==> r.value < |s| && s[r.value] == c && forall k :: r.value < k < |s| ==> s[k] != c
    ensures r.None? ==> forall k :: 0 <= k < |s| ==> s[k] != c
  {
    if s == [] then None
    else if s[|s| - 1] == c then Some(|s| - 1)
    else LastIndexOf(s[..|s| - 1], c)
  }

  /**
   * The match of a key against `^/([^/][\s\S]*)/([igmuy]*)$`.  The greedy body
   * ends at the last `/`, since no flag character is a `/`.
   */
  function MatchKeyPattern(s: string): (r: Option<KeyPattern>)
    ensures r.Some? ==> s == "/" + r.value.body + "/" + r.value.flags
    ensures r.Some? ==> |r.value.body| > 0 && r.value.body[0] != '/' && AllKeyFlags(r.value.flags)
  {
    match LastIndexOf(s, '/')
    case None => None
    case Some(j) =>
      if j >= 2 && s[0] == '/' && s[1] != '/' && AllKeyFlags(s[j + 1..]) then
        assert s == "/" + s[1..j] + "/" + s[j + 1..];
        Some(KeyPattern(s[1..j], s[j + 1..]))
      else None
  }

  /** Every well-formed `/body/flags` key is recognised, with exactly its body and flags. */
  lemma MatchKeyPatternRoundTrip(body: string, flags: string)
    requires |body| > 0 && body[0] != '/' && AllKeyFlags(flags)
    ensures MatchKeyPattern("/" + body + "/" + flags) == Some(KeyPattern(body, flags))
  {
    var s := "/" + body + "/" + flags;
    var j := |body| + 1;
    assert s[j] == '/';
    assert forall k :: j < k < |s| ==> s[k] == flags[k - j - 1];
    var r := LastIndexOf(s, '/');
    assert r.Some? && r.value == j;
    assert s[1..j] == body;
    assert s[j + 1..] == flags;
  }

  /** A key that matches the pattern-key syntax is classified as a pattern key. */
  lemma MatchedKeysArePatternKeys(s: string)
    requires MatchKeyPattern(s).Some?
    ensures IsPatternKey(s)
  {
    var m := MatchKeyPattern(s).value;
    assert s[1] == m.body[0];
  }

  // ---------------------------------------------------------------------------
  //  isInteger
  // ---------------------------------------------------------------------------

  /** The text matches `^[-+]?\d+$`. */
  predicate IsSignedDigits(s: string) {
    if |s| > 0 && (s[0] == '-' || s[0] == '+') then |s| > 1 && AllDigits(s[1..])
    else |s| > 0 && AllDigits(s)
  }

  function SignedValue(s: string): int
    requires IsSignedDigits(s)
  {
    if s[0] == '-' then -(ParseDigits(s[1..]) as int)
    else if s[0] == '+' then ParseDigits(s[1..])
    else ParseDigits(s)
  }

  /** A text `/^[-+]?\d+$/` accepts whose value a double cannot hold exactly. */
  predicate IsIntegerText(s: string) {
    IsSignedDigits(s) && (SignedValue(s) > MAX_SAFE_INTEGER || SignedValue(s) < MIN_SAFE_INTEGER)
  }

  /**
   * Native integers, and digit strings too large for a double to hold exactly
   * (so that they are validated by their decimal text).  A datum kept in the
   * heap is read through `String`, as the regex test and the comparison do:
   * see `HeapText`.
   */
  predicate IsInteger(v: Value) {
    match v
    case Num(_) => true
    case Str(s) => IsIntegerText(s)
    case _ => false
  }

  /**
   * `String(v)` of a heap datum, as far as `/^[-+]?\d+$/` can tell: a plain
   * object reads `[object Object]`, an empty array `""`, and an array of two
   * or more elements has a `,` in its text, so none of these can match
   * (`None`).  A one-element array reads as its element, null and undefined
   * reading `""`.
   */
  function HeapText(h: Heap, v: Value): (r: Result<Option<string>>)
    requires v.Ptr?
  {
    if v.addr !in h then Fail(Unmodelled("a datum the model keeps outside the heap"))
    else match h[v.addr]
      case Obj(_) => Ok(None)
      case Arr(items) =>
        if |items| != 1 then Ok(None)
        else match items[0]
          case Ptr(_) => Fail(Unmodelled("a nested array read as text"))
          case Undef => Ok(Some(""))
          case Null => Ok(Some(""))
          case x => Ok(ToText(x))
  }

  /** `isInteger` on any datum, with a heap datum read through `String`. */
  function IsIntegerIn(h: Heap, v: Value): (r: Result<bool>)
    ensures !v.Ptr? ==> r == Ok(IsInteger(v))
    ensures v.Ptr? && r.Ok? ==> HeapText(h, v).Ok? && (r.value <==> HeapText(h, v).value.Some? && IsIntegerText(HeapText(h, v).value.value))
  {
    if v.Ptr? then
      var t :- HeapText(h, v);
      Ok(t.Some? && IsIntegerText(t.value))
    else Ok(IsInteger(v))
  }

  /** The cases of `isInteger`, heap data included. */
  lemma IsIntegerCases(h: Heap, v: Value)
    ensures v.Num? ==> IsIntegerIn(h, v) == Ok(true)
    ensures v.Str? && IsSignedDigits(v.s) && MIN_SAFE_INTEGER <= SignedValue(v.s) <= MAX_SAFE_INTEGER ==> IsIntegerIn(h, v) == Ok(false)
    ensures v.Str? && IsSignedDigits(v.s) && SignedValue(v.s) > MAX_SAFE_INTEGER ==> IsIntegerIn(h, v) == Ok(true)
    ensures v.Str? && !IsSignedDigits(v.s) ==> IsIntegerIn(h, v) == Ok(false)
    ensures !v.Num? && !v.Str? && !v.Ptr? ==> IsIntegerIn(h, v) == Ok(false)
    ensures v.Ptr? && v.addr in h && h[v.addr].Obj? ==> IsIntegerIn(h, v) == Ok(false)
    ensures v.Ptr? && v.addr in h && h[v.addr].Arr? && |h[v.addr].items| != 1 ==> IsIntegerIn(h, v) == Ok(false)
    ensures v.Ptr? && v.addr in h && h[v.addr].Arr? && |h[v.addr].items| == 1 ==>
              var x := h[v.addr].items[0];
              && (x.Str? ==> IsIntegerIn(h, v) == Ok(IsIntegerText(x.s)))
              && (x.Num? ==> IsIntegerIn(h, v) == Ok(IsIntegerText(NumberText(x.n))))
              && (x.Null? || x.Undef? || x.Bool? ==> IsIntegerIn(h, v) == Ok(false))
              && (x.Ptr? ==> IsIntegerIn(h, v).Fail?)
  {
  }

  /** The decimal text of any integer beyond the safe range is recognised. */
  lemma {:induction false} LargeDecimalIsInteger(n: int)
    requires n > MAX_SAFE_INTEGER
    ensures IsSignedDigits(Decimal(n)) && SignedValue(Decimal(n)) == n
    ensures IsInteger(Str(Decimal(n)))
  {
    ParseNatToString(n);
  }

  // ---------------------------------------------------------------------------
  //  merge
  // ---------------------------------------------------------------------------

  datatype Merged = Merged(heap: Heap, next: Addr)

  /** Every address at or beyond `next` is unused. */
  predicate FreshFrom(h: Heap, next: Addr) {
    forall a :: a in h ==> a < next
  }

  /** `target[k] = v` on a heap object. */
  function Assign(h: Heap, target: Value, k: string, v: Value): (r: Result<Heap>)
    ensures r.Ok? ==> r.value.Keys == h.Keys
    ensures r.Ok? ==> target.Ptr? && forall a :: a in h && a != target.addr ==> r.value[a] == h[a]
    ensures IsPlainObject(h, target) ==> r.Ok? && IsPlainObject(r.value, target) && Get(r.value, target, k) == v
    ensures IsPlainObject(h, target) ==> forall k' :: k' != k ==> Get(r.value, target, k') == Get(h, target, k')
  {
    if target.Ptr? && target.addr in h then
      match SetKey(h[target.addr], k, v)
      case Some(c) => Ok(h[target.addr := c])
      case None => Fail(Unmodelled("a non-index property written on an array"))
    else Fail(Unmodelled("a property written on a value the model keeps outside the heap"))
  }

  /**
   * Deep merge of `source` into `target`: object-valued source properties are
   * merged recursively (a falsy target property is first replaced by a fresh
   * `{}`), every other source property overwrites the target's.  A
   * non-object target or source is left alone.
   */
  function Merge(fuel: nat, h: Heap, next: Addr, target: Value, source: Value): (r: Result<Merged>)
    requires FreshFrom(h, next)
    ensures !IsObjectLike(target) || !IsObjectLike(source) ==> r == Ok(Merged(h, next))
    ensures r.Ok? ==> FreshFrom(r.value.heap, r.value.next) && next <= r.value.next
    ensures r.Ok? ==> h.Keys <= r.value.heap.Keys
    decreases fuel, 0
  {
    if !IsObjectLike(target) || !IsObjectLike(source) then Ok(Merged(h, next))
    else if fuel == 0 then Fail(StackExhausted)
    else MergeKeys(fuel - 1, h, next, target, source, Keys(h, source), 0)
  }

  function MergeKeys(fuel: nat, h: Heap, next: Addr, target: Value, source: Value, keys: seq<string>, i: nat)
    : (r: Result<Merged>)
    requires FreshFrom(h, next) && i <= |keys|
    ensures r.Ok? ==> FreshFrom(r.value.heap, r.value.next) && next <= r.value.next
    ensures r.Ok? ==> h.Keys <= r.value.heap.Keys
    decreases fuel, 1, |keys| - i
  {
    if i == |keys| then Ok(Merged(h, next))
    else
      var k := keys[i];
      var sv := Get(h, source, k);
      if IsObjectLike(sv) then
        var made: Result<Merged> :=
          if Truthy(Get(h, target, k)) then Ok(Merged(h, next))
          else
            match Assign(h[next := Obj([])], target, k, Ptr(next))
            case Ok(h1) => Ok(Merged(h1, next + 1))
            case Fail(f) => Fail(f);
        match made
        case Fail(f) => Fail(f)
        case Ok(m) =>
          match Merge(fuel, m.heap, m.next, Get(m.heap, target, k), Get(m.heap, source, k))
          case Fail(f) => Fail(f)
          case Ok(m2) => MergeKeys(fuel, m2.heap, m2.next, target, source, keys, i + 1)
      else
        match Assign(h, target, k, sv)
        case Fail(f) => Fail(f)
        case Ok(h1) => MergeKeys(fuel, h1, next, target, source, keys, i + 1)
  }

  /** Every value stored in the object's fields is a primitive. */
  predicate FlatObject(h: Heap, v: Value) {
    IsPlainObject(h, v) && forall j :: 0 <= j < |h[v.addr].fields| ==> IsPrimitive(h[v.addr].fields[j].val)
  }

  predicate DistinctKeys(fields: seq<Field>) {
    forall i, j :: 0 <= i < j < |fields| ==> fields[i].key != fields[j].key
  }

  /**
   * Merging a flat source into a different plain object overwrites exactly the
   * source's keys with the source's values; every other property and every
   * other heap object is untouched, and nothing is allocated.
   */
  lemma MergeFlat(fuel: nat, h: Heap, next: Addr, target: Value, source: Value)
    requires FreshFrom(h, next) && fuel > 0
    requires IsPlainObject(h, target) && FlatObject(h, source) && target.addr != source.addr
    requires DistinctKeys(h[source.addr].fields)
    ensures Merge(fuel, h, next, target, source).Ok?
    ensures var m := Merge(fuel, h, next, target, source).value;
      && m.next == next && m.heap.Keys == h.Keys
      && (forall a :: a in h && a != target.addr ==> m.heap[a] == h[a])
      && (forall k :: Get(m.heap, target, k) ==
            (if HasField(h[source.addr].fields, k) then Lookup(h[source.addr].fields, k) else Get(h, target, k)))
  {
    var fs := h[source.addr].fields;
    MergeFlatKeys(fuel - 1, h, next, target, source, fs, 0);
  }

  /**
   * The recursive case, one level deep: when the source's only property `k`
   * holds a flat object and the target's `k` is falsy, the target's `k` becomes
   * a fresh object (allocated at `next`) into which the inner object is merged,
   * so it ends up with exactly the inner object's properties.
   */
  lemma MergeNestedIntoFresh(fuel: nat, h: Heap, next: Addr, target: Value, source: Value, k: string, inner: Value)
    requires FreshFrom(h, next) && fuel > 1
    requires IsPlainObject(h, target) && IsPlainObject(h, source) && target.addr != source.addr
    requires h[source.addr].fields == [Field(k, inner)] && !Truthy(Get(h, target, k))
    requires FlatObject(h, inner) && DistinctKeys(h[inner.addr].fields) && inner.addr != target.addr
    ensures Merge(fuel, h, next, target, source).Ok?
    ensures var m := Merge(fuel, h, next, target, source).value;
      && Get(m.heap, target, k) == Ptr(next)
      && (forall k' :: Get(m.heap, Ptr(next), k') ==
            (if HasField(h[inner.addr].fields, k') then Lookup(h[inner.addr].fields, k') else Undef))
      && (forall k' :: k' != k ==> Get(m.heap, target, k') == Get(h, target, k'))
  {
    var h1 := MergeThroughFresh(fuel, h, next, target, source, k, inner);
    assert h1[inner.addr] == h[inner.addr];
    MergeFlat(fuel - 1, h1, next + 1, Ptr(next), inner);
    var m2 := Merge(fuel - 1, h1, next + 1, Ptr(next), inner).value;
    assert target.addr in h && target.addr < next;
    assert m2.heap[target.addr] == h1[target.addr];
    var fs := h1[inner.addr].fields;
    forall k' ensures Get(m2.heap, Ptr(next), k') == (if HasField(fs, k') then Lookup(fs, k') else Undef) {
      assert Get(m2.heap, Ptr(next), k') == (if HasField(fs, k') then Lookup(fs, k') else Get(h1, Ptr(next), k'));
      assert Get(h1, Ptr(next), k') == Lookup([], k');
    }
  }

  /** The outer merge of a one-property source comes down to the inner merge into the fresh `{}`. */
  lemma MergeThroughFresh(fuel: nat, h: Heap, next: Addr, target: Value, source: Value, k: string, inner: Value)
    returns (h1: Heap)
    requires FreshFrom(h, next) && fuel > 1
    requires IsPlainObject(h, target) && IsPlainObject(h, source) && target.addr != source.addr
    requires h[source.addr].fields == [Field(k, inner)] && !Truthy(Get(h, target, k))
    requires FlatObject(h, inner) && DistinctKeys(h[inner.addr].fields) && inner.addr != target.addr
    ensures h1.Keys == h.Keys + {next} && FreshFrom(h1, next + 1)
    ensures h1[next] == Obj([]) && forall a :: a in h && a != target.addr ==> h1[a] == h[a]
    ensures IsPlainObject(h1, target) && Get(h1, target, k) == Ptr(next)
    ensures forall k' :: k' != k ==> Get(h1, target, k') == Get(h, target, k')
    ensures Merge(fuel - 1, h1, next + 1, Ptr(next), inner).Ok?
    ensures Merge(fuel, h, next, target, source) == Merge(fuel - 1, h1, next + 1, Ptr(next), inner)
  {
    assert Keys(h, source) == [k];
    h1 := FreshSlot(h, next, target, k);
    assert h1[source.addr] == h[source.addr] && h1[inner.addr] == h[inner.addr];
    assert Get(h1, source, k) == inner;
    MergeFlat(fuel - 1, h1, next + 1, Ptr(next), inner);
    MergeKeysFreshStep(fuel - 1, h, next, target, source, [k], 0, h1);
    var m2 := Merge(fuel - 1, h1, next + 1, Ptr(next), inner).value;
    assert MergeKeys(fuel - 1, m2.heap, m2.next, target, source, [k], 1) == Ok(m2);
  }

  /** One step of the merge loop on a property that is not object-like: it is assigned. */
  lemma MergeKeysPlainStep(fuel: nat, h: Heap, next: Addr, target: Value, source: Value, keys: seq<string>, i: nat,
                           h1: Heap)
    requires FreshFrom(h, next) && i < |keys| && !IsObjectLike(Get(h, source, keys[i]))
    requires Assign(h, target, keys[i], Get(h, source, keys[i])) == Ok(h1)
    ensures MergeKeys(fuel, h, next, target, source, keys, i) == MergeKeys(fuel, h1, next, target, source, keys, i + 1)
  {
  }

  /**
   * One step of the merge loop on an object-like property whose target
   * property is falsy: a fresh `{}` is installed there and merged into.
   */
  lemma MergeKeysFreshStep(fuel: nat, h: Heap, next: Addr, target: Value, source: Value, keys: seq<string>, i: nat,
                           h1: Heap)
    requires FreshFrom(h, next) && i < |keys| && IsObjectLike(Get(h, source, keys[i]))
    requires !Truthy(Get(h, target, keys[i]))
    requires Assign(h[next := Obj([])], target, keys[i], Ptr(next)) == Ok(h1) && FreshFrom(h1, next + 1)
    requires Get(h1, target, keys[i]) == Ptr(next)
    ensures MergeKeys(fuel, h, next, target, source, keys, i) ==
      match Merge(fuel, h1, next + 1, Ptr(next), Get(h1, source, keys[i]))
      case Fail(f) => Fail(f)
      case Ok(m2) => MergeKeys(fuel, m2.heap, m2.next, target, source, keys, i + 1)
  {
  }

  /** Installing a fresh `{}` at `next` as the target's `k`, as the merge does for a falsy property. */
  lemma FreshSlot(h: Heap, next: Addr, target: Value, k: string) returns (h1: Heap)
    requires FreshFrom(h, next) && IsPlainObject(h, target)
    ensures Assign(h[next := Obj([])], target, k, Ptr(next)) == Ok(h1)
    ensures h1.Keys == h.Keys + {next} && FreshFrom(h1, next + 1)
    ensures h1[next] == Obj([]) && forall a :: a in h && a != target.addr ==> h1[a] == h[a]
    ensures IsPlainObject(h1, target) && Get(h1, target, k) == Ptr(next)
    ensures forall k' :: k' != k ==> Get(h1, target, k') == Get(h, target, k')
  {
    var h0 := h[next := Obj([])];
    assert IsPlainObject(h0, target) && h0[target.addr] == h[target.addr];
    h1 := Assign(h0, target, k, Ptr(next)).value;
  }

  lemma {:induction false} MergeFlatKeys(fuel: nat, h: Heap, next: Addr, target: Value, source: Value,
                                         fs: seq<Field>, i: nat)
    requires FreshFrom(h, next) && i <= |fs|
    requires IsPlainObject(h, target) && FlatObject(h, source) && target.addr != source.addr
    requires fs == h[source.addr].fields && DistinctKeys(fs)
    ensures var r := MergeKeys(fuel, h, next, target, source, FieldKeys(fs), i);
      && r.Ok? && r.value.next == next && r.value.heap.Keys == h.Keys
      && (forall a :: a in h && a != target.addr ==> r.value.heap[a] == h[a])
      && (forall k :: Get(r.value.heap, target, k) ==
            (if HasField(fs[i..], k) then Lookup(fs[i..], k) else Get(h, target, k)))
    decreases |fs| - i
  {
    var keys := FieldKeys(fs);
    if i < |fs| {
      var k := keys[i];
      assert k == fs[i].key;
      var sv := Get(h, source, k);
      assert sv == fs[i].val by { LookupDistinct(fs, i); }
      var h1 := Assign(h, target, k, sv).value;
      assert IsPlainObject(h1, target) && FlatObject(h1, source) && h1[source.addr] == h[source.addr];
      MergeKeysPlainStep(fuel, h, next, target, source, keys, i, h1);
      MergeFlatKeys(fuel, h1, next, target, source, fs, i + 1);
      forall k' ensures Get(MergeKeys(fuel, h1, next, target, source, keys, i + 1).value.heap, target, k') ==
                        (if HasField(fs[i..], k') then Lookup(fs[i..], k') else Get(h, target, k'))
      {
        HasFieldSuffix(fs, i, k');
        LookupSuffix(fs, i, k');
        if k' != k {
          assert Get(h1, target, k') == Get(h, target, k');
        }
      }
    } else {
      forall k ensures !HasField(fs[i..], k) {
      }
    }
  }

  /** In a field list without duplicates, the i-th field is the one a lookup of its key finds. */
  lemma {:induction false} LookupDistinct(fs: seq<Field>, i: nat)
    requires DistinctKeys(fs) && i < |fs|
    ensures Lookup(fs, fs[i].key) == fs[i].val
    decreases i
  {
    if i > 0 {
      assert DistinctKeys(fs[1..]) by {
        forall a, b | 0 <= a < b < |fs[1..]| ensures fs[1..][a].key != fs[1..][b].key {
          assert fs[1..][a] == fs[a + 1] && fs[1..][b] == fs[b + 1];
        }
      }
      assert fs[1..][i - 1] == fs[i];
      LookupDistinct(fs[1..], i - 1);
    }
  }

  lemma HasFieldSuffix(fs: seq<Field>, i: nat, k: string)
    requires i < |fs|
    ensures HasField(fs[i..], k) <==> fs[i].key == k || HasField(fs[i + 1..], k)
  {
    if HasField(fs[i..], k) && fs[i].key != k {
      var j :| 0 <= j < |fs[i..]| && fs[i..][j].key == k;
      assert j > 0 && fs[i + 1..][j - 1].key == k;
    }
    if HasField(fs[i + 1..], k) {
      var j :| 0 <= j < |fs[i + 1..]| && fs[i + 1..][j].key == k;
      assert fs[i..][j + 1].key == k;
    }
    if fs[i].key == k {
      assert fs[i..][0].key == k;
    }
  }

  lemma LookupSuffix(fs: seq<Field>, i: nat, k: string)
    requires i < |fs|
    ensures Lookup(fs[i..], k) == if fs[i].key == k then fs[i].val else Lookup(fs[i + 1..], k)
  {
    assert fs[i..][1..] == fs[i + 1..];
  }
}
